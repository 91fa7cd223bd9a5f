/** The master's recovery tables and calls, in place (master/src/recovery.c). */
module MasterRecovery {
  import opened MachineInts
  import opened MasterRecoveryModel

  class Context {
    const workers: array<Observation>
    var workerCount: nat
    const leases: array<Lease>
    var leaseCount: nat
    var health: Health
    var recoveryJobs: nat

    ghost predicate InRange()
      reads this
    {
      workers.Length == MAX_WORKERS && leases.Length == MAX_LEASES && workerCount <= MAX_WORKERS
          && leaseCount <= MAX_LEASES
    }

    ghost function Model(): State
      requires InRange()
      reads this, workers, leases
    {
      State(workers[..workerCount], leases[..leaseCount], recoveryJobs, health)
    }

    constructor ()
      ensures InRange() && Model() == START && fresh(workers) && fresh(leases)
    {
      workers := new Observation[MAX_WORKERS](_ => Observation("", 0, false));
      leases := new Lease[MAX_LEASES](_ => Lease(0, 0, "", 0, Active, 0, NoRetry));
      workerCount, leaseCount, recoveryJobs, health := 0, 0, 0, Ok;
    }

    method RegisterWorkerHeartbeat(id: string, nowMs: u64)
      requires InRange()
      modifies this`workerCount, workers
      ensures InRange() && Model() == Heartbeat(old(Model()), id, nowMs)
    {
      for i := 0 to workerCount
        invariant workerCount == old(workerCount) && Model() == old(Model())
        invariant forall m :: 0 <= m < i ==> workers[m].workerId != id
      {
        if workers[i].workerId == id {
          assert WorkerFrom(Model().workers, id, 0) == i;
          workers[i] := workers[i].(lastHeartbeatMs := nowMs, healthy := true);
          assert workers[..workerCount] == old(workers[..workerCount])[i := workers[i]];
          return;
        }
      }
      if workerCount < MAX_WORKERS {
        workers[workerCount] := Observation(id, nowMs, true);
        workerCount := workerCount + 1;
        assert workers[..workerCount] == old(workers[..workerCount]) + [Observation(id, nowMs, true)];
      }
    }

    method InjectLease(leaseId: u64, chunkId: u64, workerId: string, expiresMs: u64, policy: RetryPolicy)
      requires InRange()
      modifies this`leaseCount, leases
      ensures InRange() && Model() == Inject(old(Model()), leaseId, chunkId, workerId, expiresMs, policy)
    {
      if leaseCount < MAX_LEASES {
        leases[leaseCount] := Lease(leaseId, chunkId, workerId, expiresMs, Active, 0, policy);
        leaseCount := leaseCount + 1;
        assert leases[..leaseCount] == old(leases[..leaseCount]) + [leases[leaseCount - 1]];
      }
    }

    method ProcessIncomingResult(leaseId: u64, workerId: string) returns (accepted: bool)
      requires InRange()
      modifies leases
      ensures (Model(), accepted) == Result(old(Model()), leaseId, workerId)
    {
      for i := 0 to leaseCount
        invariant Model() == old(Model())
        invariant forall m :: 0 <= m < i ==> leases[m].leaseId != leaseId
      {
        if leases[i].leaseId == leaseId {
          assert LeaseFrom(Model().leases, leaseId, 0) == i;
          if leases[i].state == Expired || leases[i].state == Reconciled {
            return false;
          }
          if leases[i].workerId != workerId {
            return false;
          }
          leases[i] := leases[i].(state := Reconciled);
          assert leases[..leaseCount] == old(leases[..leaseCount])[i := leases[i]];
          return true;
        }
      }
      return false;
    }

    /** The state of the first loop of a sweep when n workers have been judged. */
    ghost predicate Marking(s: State, nowMs: u64, timeoutMs: u64, n: nat)
      reads this, workers, leases
    {
      InRange() && health == s.health
      && JudgedUpTo(s, nowMs, timeoutMs, n, workers[..workerCount], leases[..leaseCount], recoveryJobs)
    }

    /** Every active lease of the lost worker becomes uncertain and counts as a recovery job. */
    method MarkUncertain(id: string)
      requires InRange()
      modifies this`recoveryJobs, leases
      ensures forall i :: 0 <= i < leaseCount ==> leases[i] == MarkLost(old(leases[i]), old(leases[i]).workerId == id)
      ensures recoveryJobs == old(recoveryJobs) + UncertainCount(leases[..leaseCount], leaseCount)
                              - UncertainCount(old(leases[..leaseCount]), leaseCount)
    {
      ghost var was := leases[..leaseCount];
      for j := 0 to leaseCount
        invariant forall i :: 0 <= i < j ==> leases[i] == MarkLost(was[i], was[i].workerId == id)
        invariant forall i :: j <= i < leaseCount ==> leases[i] == was[i]
        invariant recoveryJobs == old(recoveryJobs) + MarkCount(was, id, j)
      {
        if leases[j].workerId == id && leases[j].state == Active {
          leases[j] := leases[j].(state := Uncertain);
          recoveryJobs := recoveryJobs + 1;
        }
      }
      MarkedAreUncertain(was, leases[..leaseCount], id, leaseCount);
    }

    method MarkLostLeases(nowMs: u64, timeoutMs: u64) returns (degraded: bool)
      requires InRange()
      modifies this`recoveryJobs, workers, leases
      ensures Marking(old(Model()), nowMs, timeoutMs, workerCount)
      ensures degraded <==> !HealthyUpTo(SweptWorkers(old(Model()), nowMs, timeoutMs), workerCount)
    {
      ghost var s := Model();
      ghost var judged := SweptWorkers(s, nowMs, timeoutMs);
      degraded := false;
      NoneJudged(s, nowMs, timeoutMs);
      for i := 0 to workerCount
        invariant Marking(s, nowMs, timeoutMs, i)
        invariant degraded <==> !HealthyUpTo(judged, i)
      {
        var healthy := JudgeWorker(s, i, nowMs, timeoutMs);
        if !healthy {
          degraded := true;
        }
      }
    }

    method JudgeWorker(ghost s: State, i: nat, nowMs: u64, timeoutMs: u64) returns (healthy: bool)
      requires i < |s.workers| && Marking(s, nowMs, timeoutMs, i)
      modifies this`recoveryJobs, workers, leases
      ensures Marking(s, nowMs, timeoutMs, i + 1) && healthy == SweptWorkers(s, nowMs, timeoutMs)[i].healthy
    {
      ghost var ws, ls, jobs := workers[..workerCount], leases[..leaseCount], recoveryJobs;
      JudgeTables(i, nowMs, timeoutMs);
      JudgedNext(s, nowMs, timeoutMs, i, ws, ls, jobs, workers[..workerCount], leases[..leaseCount], recoveryJobs);
      JudgedWorker(s, nowMs, timeoutMs, i + 1, workers[..workerCount], leases[..leaseCount], recoveryJobs, i);
      healthy := workers[i].healthy;
    }

    /** A healthy worker outside its window is lost, and with it its active leases. */
    method JudgeTables(i: nat, nowMs: u64, timeoutMs: u64)
      requires InRange() && i < workerCount
      modifies this`recoveryJobs, workers, leases
      ensures workers[..workerCount] == old(workers[..workerCount])[i := Observed(old(workers[i]), nowMs, timeoutMs)]
      ensures forall k :: 0 <= k < leaseCount ==>
                leases[k] == MarkLost(old(leases[k]), Missed(old(workers[i]), nowMs, timeoutMs)
                                                      && old(leases[k]).workerId == old(workers[i]).workerId)
      ensures recoveryJobs - old(recoveryJobs)
           == UncertainCount(leases[..leaseCount], leaseCount) - UncertainCount(old(leases[..leaseCount]), leaseCount)
    {
      if workers[i].healthy && (nowMs - workers[i].lastHeartbeatMs) % TWO_64 > timeoutMs {
        workers[i] := workers[i].(healthy := false);
        MarkUncertain(workers[i].workerId);
      }
    }

    /** The second loop: every lease that is due leaves its worker. */
    method RequeueDue(nowMs: u64)
      requires InRange()
      modifies this`recoveryJobs, leases
      ensures forall i :: 0 <= i < leaseCount ==> leases[i] == RetireDue(old(leases[i]), nowMs)
      ensures recoveryJobs == Monus(old(recoveryJobs), DueCount(old(leases[..leaseCount]), nowMs, leaseCount))
    {
      ghost var was := leases[..leaseCount];
      for i := 0 to leaseCount
        invariant forall k :: 0 <= k < i ==> leases[k] == RetireDue(was[k], nowMs)
        invariant forall k :: i <= k < leaseCount ==> leases[k] == was[k]
        invariant recoveryJobs == Monus(old(recoveryJobs), DueCount(was, nowMs, i))
      {
        if leases[i].state == Uncertain || (leases[i].state == Active && nowMs > leases[i].expiresMs) {
          var retries := leases[i].retryCount + 1;
          if leases[i].policy != NoRetry && retries <= MAX_RETRIES {
            leases[i] := leases[i].(retryCount := retries, state := Expired);
          } else {
            leases[i] := leases[i].(retryCount := retries, state := Reconciled);
          }
          if recoveryJobs > 0 {
            recoveryJobs := recoveryJobs - 1;
          }
        }
      }
    }

    method SweepTimeouts(nowMs: u64, timeoutMs: u64)
      requires InRange()
      modifies this`recoveryJobs, this`health, workers, leases
      ensures Model() == Sweep(old(Model()), nowMs, timeoutMs)
    {
      ghost var s := Model();
      var degraded := MarkLostLeases(nowMs, timeoutMs);
      ghost var ws, marked, jobs := workers[..workerCount], leases[..leaseCount], recoveryJobs;
      RequeueDue(nowMs);
      health := if degraded then Warn else Ok;
      SweptIs(s, nowMs, timeoutMs, ws, marked, jobs, leases[..leaseCount], recoveryJobs, health);
    }
  }

  ghost predicate WorkersJudged(s: State, nowMs: u64, timeoutMs: u64, n: nat, ws: seq<Observation>)
    requires |ws| == |s.workers|
  {
    forall i {:trigger ws[i]} :: 0 <= i < |ws| ==>
      ws[i] == if i < n then Observed(s.workers[i], nowMs, timeoutMs) else s.workers[i]
  }

  ghost predicate LeasesMarked(s: State, nowMs: u64, timeoutMs: u64, n: nat, ls: seq<Lease>)
    requires n <= |s.workers| && |ls| == |s.leases|
  {
    forall i {:trigger ls[i]} :: 0 <= i < |ls| ==>
      ls[i] == MarkLost(s.leases[i], Lost(s.workers, nowMs, timeoutMs, n, s.leases[i].workerId))
  }

  /** ws and ls are the tables of s with the first n workers judged and their leases marked. */
  ghost predicate JudgedUpTo(s: State, nowMs: u64, timeoutMs: u64, n: nat, ws: seq<Observation>, ls: seq<Lease>,
                             jobs: int) {
    && n <= |s.workers| == |ws| && |s.leases| == |ls|
    && WorkersJudged(s, nowMs, timeoutMs, n, ws) && LeasesMarked(s, nowMs, timeoutMs, n, ls)
    && jobs == s.recoveryJobs + UncertainCount(ls, |ls|) - UncertainCount(s.leases, |s.leases|)
  }

  lemma JudgedNext(s: State, nowMs: u64, timeoutMs: u64, n: nat,
                   ws: seq<Observation>, ls: seq<Lease>, jobs: int, ws': seq<Observation>, ls': seq<Lease>, jobs': int)
    requires n < |s.workers| && JudgedUpTo(s, nowMs, timeoutMs, n, ws, ls, jobs)
    requires ws' == ws[n := Observed(ws[n], nowMs, timeoutMs)]
    requires var missed := Missed(ws[n], nowMs, timeoutMs);
             |ls'| == |ls| && forall i :: 0 <= i < |ls| ==>
                 ls'[i] == MarkLost(ls[i], missed && ls[i].workerId == ws[n].workerId)
    requires jobs' - jobs == UncertainCount(ls', |ls'|) - UncertainCount(ls, |ls|)
    ensures JudgedUpTo(s, nowMs, timeoutMs, n + 1, ws', ls', jobs')
  {
    assert WorkersJudged(s, nowMs, timeoutMs, n + 1, ws');
    MarkedNext(s, nowMs, timeoutMs, n, ls, ls', ws[n]);
  }

  lemma AllJudged(s: State, nowMs: u64, timeoutMs: u64, ws: seq<Observation>, ls: seq<Lease>, jobs: int)
    requires JudgedUpTo(s, nowMs, timeoutMs, |s.workers|, ws, ls, jobs)
    ensures ws == SweptWorkers(s, nowMs, timeoutMs) && ls == MarkedLeases(s, nowMs, timeoutMs)
  {
  }

  lemma AllRetired(s: State, nowMs: u64, timeoutMs: u64, marked: seq<Lease>, ls: seq<Lease>)
    requires marked == MarkedLeases(s, nowMs, timeoutMs) && |ls| == |marked|
    requires forall i :: 0 <= i < |ls| ==> ls[i] == RetireDue(marked[i], nowMs)
    ensures ls == SweptLeases(s, nowMs, timeoutMs)
  {
  }

  /** The two loops, one after the other, make a sweep. */
  lemma SweptIs(s: State, nowMs: u64, timeoutMs: u64, ws: seq<Observation>, marked: seq<Lease>, jobs: nat,
                ls: seq<Lease>, jobs': nat, health: Health)
    requires JudgedUpTo(s, nowMs, timeoutMs, |s.workers|, ws, marked, jobs)
    requires |ls| == |marked| && (forall i :: 0 <= i < |ls| ==> ls[i] == RetireDue(marked[i], nowMs))
    requires jobs' == Monus(jobs, DueCount(marked, nowMs, |marked|))
    requires health == if HealthyUpTo(SweptWorkers(s, nowMs, timeoutMs), |s.workers|) then Ok else Warn
    ensures State(ws, ls, jobs', health) == Sweep(s, nowMs, timeoutMs)
  {
    AllJudged(s, nowMs, timeoutMs, ws, marked, jobs);
    AllRetired(s, nowMs, timeoutMs, marked, ls);
  }

  lemma JudgedWorker(s: State, nowMs: u64, timeoutMs: u64, n: nat,
                     ws: seq<Observation>, ls: seq<Lease>, jobs: int, i: nat)
    requires JudgedUpTo(s, nowMs, timeoutMs, n, ws, ls, jobs) && i < n
    ensures ws[i] == SweptWorkers(s, nowMs, timeoutMs)[i]
  {
  }

  lemma MarkedNext(s: State, nowMs: u64, timeoutMs: u64, n: nat, ls: seq<Lease>, ls': seq<Lease>, w: Observation)
    requires n < |s.workers| && w == s.workers[n] && |ls'| == |ls| == |s.leases|
    requires LeasesMarked(s, nowMs, timeoutMs, n, ls)
    requires forall i :: 0 <= i < |ls| ==>
               ls'[i] == MarkLost(ls[i], Missed(w, nowMs, timeoutMs) && ls[i].workerId == w.workerId)
    ensures LeasesMarked(s, nowMs, timeoutMs, n + 1, ls')
  {
    forall i | 0 <= i < |ls'|
      ensures ls'[i] == MarkLost(s.leases[i], Lost(s.workers, nowMs, timeoutMs, n + 1, s.leases[i].workerId))
    {
      MarkTwice(s.leases[i], s.workers, nowMs, timeoutMs, n);
    }
  }

  lemma MarkTwice(l: Lease, workers: seq<Observation>, nowMs: u64, timeoutMs: u64, n: nat)
    requires n < |workers|
    ensures var once := MarkLost(l, Lost(workers, nowMs, timeoutMs, n, l.workerId));
            MarkLost(once, Missed(workers[n], nowMs, timeoutMs) && once.workerId == workers[n].workerId)
            == MarkLost(l, Lost(workers, nowMs, timeoutMs, n + 1, l.workerId))
  {
  }

  lemma NoneJudged(s: State, nowMs: u64, timeoutMs: u64)
    ensures JudgedUpTo(s, nowMs, timeoutMs, 0, s.workers, s.leases, s.recoveryJobs)
  {
  }

  /** How many of the first n leases are active on the given worker. */
  ghost function MarkCount(leases: seq<Lease>, id: string, n: nat): nat
    requires n <= |leases|
  {
    if n == 0 then 0
    else MarkCount(leases, id, n - 1) + if leases[n - 1].workerId == id && leases[n - 1].state == Active then 1 else 0
  }

  lemma {:induction false} MarkedAreUncertain(was: seq<Lease>, now: seq<Lease>, id: string, n: nat)
    requires n <= |was| == |now|
    requires forall i :: 0 <= i < n ==> now[i] == MarkLost(was[i], was[i].workerId == id)
    ensures UncertainCount(now, n) == UncertainCount(was, n) + MarkCount(was, id, n)
    decreases n
  {
    if n > 0 {
      MarkedAreUncertain(was, now, id, n - 1);
    }
  }
}
