/** The executor's shared totals and one complete run, in place (worker/src/executor.c). The run is
    proved to be a sequence of steps of ExecutorModel's machine, so what holds there of every
    interleaving holds of it. */
module Executor {
  import opened MachineInts
  import opened Options
  import opened ExecutorModel
  import opened ExecutorOutcome

  /** The event of step t: the polls are consumed one by one once the child runs. */
  function EventAt(env: Env, t: nat): Event {
    Event(env.executable, env.pipeOk, env.forkOk,
          if 4 <= t && t - 4 < |env.polls| then env.polls[t - 4] else CANCEL)
  }

  datatype Logged = Logged(pool: Pool, run: Run)

  ghost predicate LogStep(caps: Caps, env: Env, log: seq<Logged>, t: int)
    requires 0 <= t < |log| - 1
  {
    (log[t + 1].pool, log[t + 1].run) == StepRun(log[t].pool, log[t].run, caps, EventAt(env, t))
  }

  /** The log is a run of the machine for one assignment, with nobody else using the pool. */
  ghost predicate IsLog(caps: Caps, a: Assignment, env: Env, log: seq<Logged>) {
    && |log| >= 1 && log[0].run == NewRun(a)
    && forall t :: 0 <= t < |log| - 1 ==> LogStep(caps, env, log, t)
  }

  ghost function Last(log: seq<Logged>): Logged
    requires |log| >= 1
  {
    log[|log| - 1]
  }

  /** The log with one more step of the machine. */
  lemma Extend(caps: Caps, a: Assignment, env: Env, log: seq<Logged>, next: Logged) returns (log': seq<Logged>)
    requires IsLog(caps, a, env, log)
    requires (next.pool, next.run) == StepRun(Last(log).pool, Last(log).run, caps, EventAt(env, |log| - 1))
    ensures IsLog(caps, a, env, log') && Last(log') == next && log'[0] == log[0] && |log'| == |log| + 1
  {
    log' := log + [next];
    forall t | 0 <= t < |log'| - 1 ensures LogStep(caps, env, log', t) {
      if t < |log| - 1 {
        assert LogStep(caps, env, log, t);
      }
    }
  }

  /** Alone on a pool, a run holds exactly what it has reserved. */
  lemma {:induction false} LogFacts(caps: Caps, a: Assignment, env: Env, log: seq<Logged>, t: nat)
    requires Roomy(caps) && IsLog(caps, a, env, log) && t < |log|
    requires log[0].pool.cores <= caps.cores && log[0].pool.memoryBytes <= caps.memoryBytes
    ensures RunOk(log[t].run, caps)
    ensures log[t].pool.cores == log[0].pool.cores + Cores(log[t].run) <= caps.cores
    ensures log[t].pool.memoryBytes == log[0].pool.memoryBytes + Memory(log[t].run) <= caps.memoryBytes
    decreases t
  {
    if t > 0 {
      LogFacts(caps, a, env, log, t - 1);
      assert LogStep(caps, env, log, t - 1);
      var before, after := log[t - 1], log[t];
      StepMovesTotals(before.pool, before.run, caps, EventAt(env, t - 1), (after.pool, after.run));
    }
  }

  /** The reports of a run have the documented shape, whatever the pool. */
  lemma {:induction false} LogReports(caps: Caps, a: Assignment, env: Env, log: seq<Logged>, t: nat)
    requires IsLog(caps, a, env, log) && t < |log|
    ensures ReportsOk(log[t].run)
    decreases t
  {
    if t > 0 {
      LogReports(caps, a, env, log, t - 1);
      assert LogStep(caps, env, log, t - 1);
      StepKeepsReports(log[t - 1].pool, log[t - 1].run, caps, EventAt(env, t - 1), log[t].run);
    }
  }

  /** What an ended run has reported, and that alone on a pool it gave everything back. */
  lemma EndedLog(caps: Caps, a: Assignment, env: Env, log: seq<Logged>)
    requires IsLog(caps, a, env, log) && Last(log).run.pc.Done?
    ensures var r := Last(log).run;
            && ReportsOk(r) && |r.reports| > 0
            && (r.reports[|r.reports| - 1].state in {Failed, Completed, Cancelled} <==> !r.pc.forkFailed)
            && (r.pc.ok <==> r.reports[|r.reports| - 1].state == Completed)
    ensures Roomy(caps) && log[0].pool.cores <= caps.cores && log[0].pool.memoryBytes <= caps.memoryBytes ==>
              Last(log).pool == log[0].pool
  {
    LogReports(caps, a, env, log, |log| - 1);
    if Roomy(caps) && log[0].pool.cores <= caps.cores && log[0].pool.memoryBytes <= caps.memoryBytes {
      LogFacts(caps, a, env, log, |log| - 1);
    }
  }

  /** The environment lets the run come as far as its fork and fails it there. */
  predicate FailsAtFork(pool: Pool, a: Assignment, caps: Caps, env: Env) {
    Validate(a, caps, env.executable) && Fits(pool, a, caps) && env.pipeOk && !env.forkOk
  }

  /** The run after the first k rounds of polling. */
  ghost predicate Following(a: Assignment, env: Env, r: Run, k: nat)
    requires Terminates(env, a.timeoutSeconds) && k <= |env.polls|
  {
    var first := FirstDeciding(env.polls, a.timeoutSeconds, 0);
    && r.assignment == a && (r.pc == Polling || r.pc.Ending?)
    && (if r.pc == Polling then k <= first else k == first + 1)
    && Account(r, Outputs(env.polls, a.timeoutSeconds, k), if r.pc == Polling then None else Some(env.polls[first]))
  }

  lemma FollowsOn(a: Assignment, env: Env, r: Run, k: nat)
    requires Terminates(env, a.timeoutSeconds) && k <= |env.polls| && Following(a, env, r, k) && r.pc == Polling
    ensures k < |env.polls| && Following(a, env, AfterPoll(r, env.polls[k]), k + 1)
  {
    PollAccount(r, env.polls[k], Outputs(env.polls, a.timeoutSeconds, k), AfterPoll(r, env.polls[k]));
  }

  class Totals {
    var reservedCores: u32
    var reservedMemoryBytes: u64

    function State(): Pool
      reads this
    {
      Pool(reservedCores, reservedMemoryBytes)
    }

    constructor ()
      ensures State() == IDLE
    {
      reservedCores, reservedMemoryBytes := 0, 0;
    }

    method ReserveLocalResources(a: Assignment, caps: Caps) returns (ok: bool)
      modifies this
      ensures ok <==> Fits(old(State()), a, caps)
      ensures State() == if ok then Reserve(old(State()), a) else old(State())
    {
      if (reservedCores + a.cores) % TWO_32 > caps.cores
         || (reservedMemoryBytes + a.memoryBytes) % TWO_64 > caps.memoryBytes
      {
        return false;
      }
      reservedCores := (reservedCores + a.cores) % TWO_32;
      reservedMemoryBytes := (reservedMemoryBytes + a.memoryBytes) % TWO_64;
      return true;
    }

    method ReleaseLocalResources(a: Assignment)
      modifies this
      ensures State() == Release(old(State()), a)
    {
      if reservedCores >= a.cores { reservedCores := reservedCores - a.cores; }
      if reservedMemoryBytes >= a.memoryBytes { reservedMemoryBytes := reservedMemoryBytes - a.memoryBytes; }
    }

    /** The polling loop: follows the child until some observation decides the outcome. */
    method PollChild(a: Assignment, caps: Caps, env: Env, run: Run, ghost log: seq<Logged>)
      returns (ended: Run, ghost log': seq<Logged>)
      requires Terminates(env, a.timeoutSeconds)
      requires IsLog(caps, a, env, log) && |log| == 5 && Last(log) == Logged(State(), run)
      requires run.pc == Polling && run.assignment == a && Account(run, 0, None)
      ensures IsLog(caps, a, env, log') && log'[0] == log[0] && Last(log') == Logged(State(), ended)
      ensures ended.pc.Ending? && ended.assignment == a
      ensures var k := FirstDeciding(env.polls, a.timeoutSeconds, 0);
              Account(ended, Outputs(env.polls, a.timeoutSeconds, k + 1), Some(env.polls[k]))
    {
      ended, log' := run, log;
      var k := 0;
      while ended.pc == Polling
        invariant k <= |env.polls| && Following(a, env, ended, k)
        invariant IsLog(caps, a, env, log') && |log'| == 5 + k && Last(log') == Logged(State(), ended)
        invariant log'[0] == log[0]
        decreases |env.polls| - k
      {
        FollowsOn(a, env, ended, k);
        ended := AfterPoll(ended, env.polls[k]);
        log' := Extend(caps, a, env, log', Logged(State(), ended));
        k := k + 1;
      }
    }

    /** From the reservation on: create the pipe, fork, poll, report and release. */
    method RunReserved(a: Assignment, caps: Caps, env: Env, reserved: Run, ghost log: seq<Logged>)
      returns (ok: bool, run: Run, ghost log': seq<Logged>)
      requires Terminates(env, a.timeoutSeconds)
      requires IsLog(caps, a, env, log) && |log| == 3 && Last(log) == Logged(State(), reserved)
      requires reserved.pc == Reserved && reserved.assignment == a && Account(reserved, 0, None)
      modifies this
      ensures IsLog(caps, a, env, log') && log'[0] == log[0] && Last(log') == Logged(State(), run)
      ensures run.pc.Done? && run.pc.ok == ok && (run.pc.forkFailed <==> env.pipeOk && !env.forkOk)
      ensures run.reports == ReservedReports(a, env) && (ok <==> ReservedSuccess(a, env))
    {
      run, log', ok := reserved, log, false;
      if !env.pipeOk {
        ReleaseLocalResources(a);
        run := Say(run, Failed).(pc := Done(false, false), releases := run.releases + 1);
        log' := Extend(caps, a, env, log', Logged(State(), run));
        return;
      }
      run := Say(run, Started).(pc := Piped);
      log' := Extend(caps, a, env, log', Logged(State(), run));

      if !env.forkOk {
        ReleaseLocalResources(a);
        run := run.(pc := Done(false, true), releases := run.releases + 1);
        log' := Extend(caps, a, env, log', Logged(State(), run));
        return;
      }
      run := run.(pc := Polling);
      assert Told(0) == run.reports;
      log' := Extend(caps, a, env, log', Logged(State(), run));

      run, log' := PollChild(a, caps, env, run, log');
      var outcome := run.pc.outcome;
      ok := outcome == Completed;
      run := Say(run, outcome);
      ReleaseLocalResources(a);
      run := run.(pc := Done(ok, false), releases := run.releases + 1);
      log' := Extend(caps, a, env, log', Logged(State(), run));
    }

    /** A whole run: validate, reserve, create the pipe, fork, poll, report and release. What it does
        is the machine's run under the given environment; its result and all its reports are determined by
        that environment. The last report names the outcome, except that a failed fork goes unreported;
        alone, the run leaves the pool as it found it. */
    method ExecutorRun(a: Assignment, caps: Caps, env: Env)
      returns (ok: bool, reports: seq<Report>, ghost log: seq<Logged>)
      requires Terminates(env, a.timeoutSeconds)
      modifies this
      ensures IsLog(caps, a, env, log) && log[0].pool == old(State()) && Last(log).pool == State()
      ensures Last(log).run.pc.Done? && ok == Last(log).run.pc.ok && reports == Last(log).run.reports
      ensures reports == ExpectedReports(old(State()), a, caps, env)
      ensures ok <==> ExpectedSuccess(old(State()), a, caps, env)
      ensures Last(log).run.pc.forkFailed <==> FailsAtFork(old(State()), a, caps, env)
      ensures ReportsOk(Last(log).run) && |reports| > 0
      ensures reports[|reports| - 1].state in {Failed, Completed, Cancelled} <==>
          !FailsAtFork(old(State()), a, caps, env)
      ensures ok <==> reports[|reports| - 1].state == Completed
      ensures Roomy(caps) && old(State()).cores <= caps.cores && old(State()).memoryBytes <= caps.memoryBytes ==>
                State() == old(State())
    {
      ghost var pool := State();
      var run := NewRun(a);
      log := [Logged(pool, run)];

      // Validation, reported either way.
      ok := Validate(a, caps, env.executable);
      run := if ok then Say(run, Accepted).(pc := Validated) else Say(run, Failed).(pc := Done(false, false));
      log := Extend(caps, a, env, log, Logged(State(), run));

      if ok {
        ok := ReserveLocalResources(a, caps);
        run := if ok then run.(pc := Reserved, reserves := run.reserves + 1)
               else Say(run, Failed).(pc := Done(false, false));
        log := Extend(caps, a, env, log, Logged(State(), run));
      }
      if ok {
        ok, run, log := RunReserved(a, caps, env, run, log);
      }
      reports := run.reports;
      EndedLog(caps, a, env, log);
    }
  }
}
