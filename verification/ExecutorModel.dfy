/** Chunk executor runs sharing one resource pool (worker/src/executor.c), as a state machine whose
    steps are the stretches between two accesses to the shared totals. */
module ExecutorModel {
  import opened MachineInts

  datatype Caps = Caps(cores: u32, memoryBytes: u64)

  /** ram_total_mb * 1024 * 1024, in 64-bit arithmetic. */
  function CapsOf(cores: u32, ramTotalMb: u64): Caps { Caps(cores, ramTotalMb * 1024 * 1024 % TWO_64) }

  /** The capabilities the executor reports for its host. */
  const HOST: Caps := CapsOf(8, 16384)

  const RUNTIME: string := "posix_subproc"

  datatype Assignment = Assignment(runtime: string, cores: u32, memoryBytes: u64, timeoutSeconds: u32)

  predicate Validate(a: Assignment, caps: Caps, executable: bool) {
    a.runtime == RUNTIME && a.cores <= caps.cores && a.memoryBytes <= caps.memoryBytes && executable
  }

  datatype Pool = Pool(cores: u32, memoryBytes: u64)

  const IDLE: Pool := Pool(0, 0)

  predicate Fits(p: Pool, a: Assignment, caps: Caps) {
    (p.cores + a.cores) % TWO_32 <= caps.cores && (p.memoryBytes + a.memoryBytes) % TWO_64 <= caps.memoryBytes
  }

  function Reserve(p: Pool, a: Assignment): Pool {
    Pool((p.cores + a.cores) % TWO_32, (p.memoryBytes + a.memoryBytes) % TWO_64)
  }

  function Release(p: Pool, a: Assignment): Pool {
    Pool(if p.cores >= a.cores then p.cores - a.cores else p.cores,
         if p.memoryBytes >= a.memoryBytes then p.memoryBytes - a.memoryBytes else p.memoryBytes)
  }

  // ----- One run -----

  datatype ExecState = Accepted | Started | Progress | Completed | Failed | Cancelled

  /** One status callback: the state and the progress percentage. */
  datatype Report = Report(state: ExecState, percent: nat)

  datatype Pc =
    | Begin                      // nothing checked yet
    | Validated                  // about to reserve
    | Reserved                   // about to create the pipe
    | Piped                      // about to fork
    | Polling                    // child running
    | Ending(outcome: ExecState) // child gone, about to report and release
    | Done(ok: bool, forkFailed: bool)

  datatype Run = Run(assignment: Assignment, pc: Pc, percent: nat, reports: seq<Report>, reserves: nat, releases: nat)

  function NewRun(a: Assignment): Run { Run(a, Begin, 0, [], 0, 0) }

  datatype ChildExit = StillRunning | Exited(code: u32) | Abnormal | WaitError

  /** What one round of the polling loop finds: the cancellation flag, the seconds since the start,
      whether the child wrote something, and what became of it. */
  datatype Poll = Poll(cancel: bool, elapsedSeconds: u32, output: bool, exit: ChildExit)

  /** What the environment contributes to a step; a step reads only the part that concerns it. */
  datatype Event = Event(executable: bool, pipeOk: bool, forkOk: bool, poll: Poll)

  function Say(r: Run, state: ExecState): Run { r.(reports := r.reports + [Report(state, r.percent)]) }

  /** Output from the child moves the progress on by ten, up to ninety, and is reported. */
  function AfterOutput(r: Run, output: bool): Run {
    if !output then r else Say(r.(percent := if r.percent < 90 then r.percent + 10 else r.percent), Progress)
  }

  function AfterPoll(r: Run, poll: Poll): Run {
    if poll.cancel then r.(pc := Ending(Cancelled))
    else if poll.elapsedSeconds >= r.assignment.timeoutSeconds then r.(pc := Ending(Failed))
    else
      var s := AfterOutput(r, poll.output);
      match poll.exit
      case StillRunning => s
      case Exited(code) => if code == 0 then s.(pc := Ending(Completed), percent := 100) else s.(pc := Ending(Failed))
      case Abnormal => s.(pc := Ending(Failed))
      case WaitError => s.(pc := Ending(Failed))
  }

  function StepRun(p: Pool, r: Run, caps: Caps, ev: Event): (Pool, Run) {
    match r.pc
    case Begin =>
      if Validate(r.assignment, caps, ev.executable) then (p, Say(r, Accepted).(pc := Validated))
      else (p, Say(r, Failed).(pc := Done(false, false)))
    case Validated =>
      if Fits(p, r.assignment, caps) then (Reserve(p, r.assignment), r.(pc := Reserved, reserves := r.reserves + 1))
      else (p, Say(r, Failed).(pc := Done(false, false)))
    case Reserved =>
      if ev.pipeOk then (p, Say(r, Started).(pc := Piped))
      else (Release(p, r.assignment), Say(r, Failed).(pc := Done(false, false), releases := r.releases + 1))
    case Piped =>
      if ev.forkOk then (p, r.(pc := Polling))
      else (Release(p, r.assignment), r.(pc := Done(false, true), releases := r.releases + 1))
    case Polling => (p, AfterPoll(r, ev.poll))
    case Ending(outcome) =>
      (Release(p, r.assignment), Say(r, outcome).(pc := Done(outcome == Completed, false), releases := r.releases + 1))
    case Done(_, _) => (p, r)
  }

  // ----- Any number of runs, interleaved -----

  datatype System = System(pool: Pool, runs: seq<Run>)

  datatype Move = Move(run: nat, ev: Event)

  function Step(s: System, caps: Caps, m: Move): System
    requires m.run < |s.runs|
  {
    var (p, r) := StepRun(s.pool, s.runs[m.run], caps, m.ev);
    System(p, s.runs[m.run := r])
  }

  ghost predicate Start(s: System) {
    s.pool == IDLE && forall i :: 0 <= i < |s.runs| ==> s.runs[i] == NewRun(s.runs[i].assignment)
  }

  ghost predicate TraceStep(caps: Caps, moves: seq<Move>, trace: seq<System>, t: int)
    requires 0 <= t < |moves| && |trace| == |moves| + 1
  {
    moves[t].run < |trace[t].runs| && trace[t + 1] == Step(trace[t], caps, moves[t])
  }

  /** One interleaving of the runs, from a pool with nothing reserved. */
  ghost predicate IsInterleaving(caps: Caps, moves: seq<Move>, trace: seq<System>) {
    && |trace| == |moves| + 1 && Start(trace[0])
    && forall t :: 0 <= t < |moves| ==> TraceStep(caps, moves, trace, t)
  }

  // ----- The ledger -----

  /** The run is between its successful reservation and its release. */
  predicate Holding(r: Run) { r.pc in {Reserved, Piped, Polling} || r.pc.Ending? }

  function HeldCores(runs: seq<Run>, n: nat): nat
    requires n <= |runs|
  {
    if n == 0 then 0 else HeldCores(runs, n - 1) + if Holding(runs[n - 1]) then runs[n - 1].assignment.cores else 0
  }

  function HeldMemory(runs: seq<Run>, n: nat): nat
    requires n <= |runs|
  {
    if n == 0 then 0
    else HeldMemory(runs, n - 1) + if Holding(runs[n - 1]) then runs[n - 1].assignment.memoryBytes else 0
  }

  function Cores(r: Run): nat { if Holding(r) then r.assignment.cores else 0 }
  function Memory(r: Run): nat { if Holding(r) then r.assignment.memoryBytes else 0 }

  lemma {:induction false} HeldUpdate(runs: seq<Run>, i: nat, r: Run, n: nat)
    requires i < |runs| && n <= |runs|
    ensures HeldCores(runs[i := r], n) == HeldCores(runs, n) + if i < n then Cores(r) - Cores(runs[i]) else 0
    ensures HeldMemory(runs[i := r], n) == HeldMemory(runs, n) + if i < n then Memory(r) - Memory(runs[i]) else 0
    decreases n
  {
    if n > 0 {
      HeldUpdate(runs, i, r, n - 1);
    }
  }

  lemma {:induction false} HeldAtLeast(runs: seq<Run>, i: nat, n: nat)
    requires i < n <= |runs|
    ensures Cores(runs[i]) <= HeldCores(runs, n) && Memory(runs[i]) <= HeldMemory(runs, n)
    decreases n
  {
    if i < n - 1 {
      HeldAtLeast(runs, i, n - 1);
    }
  }

  lemma {:induction false} NothingHeld(runs: seq<Run>, n: nat)
    requires n <= |runs| && forall i :: 0 <= i < n ==> !Holding(runs[i])
    ensures HeldCores(runs, n) == 0 && HeldMemory(runs, n) == 0
    decreases n
  {
    if n > 0 {
      NothingHeld(runs, n - 1);
    }
  }

  /** The totals are what the holding runs demand, and within the host's capacity. */
  ghost predicate Balanced(s: System, caps: Caps) {
    && s.pool.cores == HeldCores(s.runs, |s.runs|) <= caps.cores
    && s.pool.memoryBytes == HeldMemory(s.runs, |s.runs|) <= caps.memoryBytes
  }

  /** Reservation and release counts by program point; past validation the demand is within capacity. */
  ghost predicate RunOk(r: Run, caps: Caps) {
    && r.reserves <= 1 && r.releases <= r.reserves
    && (r.pc == Begin || r.pc == Validated ==> r.reserves == 0)
    && (Holding(r) ==> r.reserves == 1 && r.releases == 0)
    && (r.pc.Done? ==> r.releases == r.reserves)
    && (!r.pc.Begin? && !r.pc.Done? ==>
        r.assignment.cores <= caps.cores && r.assignment.memoryBytes <= caps.memoryBytes)
  }

  ghost predicate Sound(s: System, caps: Caps) {
    Balanced(s, caps) && forall i :: 0 <= i < |s.runs| ==> RunOk(s.runs[i], caps)
  }

  /** Twice the capacity still fits the counters. */
  predicate Roomy(caps: Caps) { 2 * caps.cores < TWO_32 && 2 * caps.memoryBytes < TWO_64 }

  /** One step of one run moves the totals by what the run starts or stops holding. */
  lemma StepMovesTotals(p: Pool, r: Run, caps: Caps, ev: Event, after: (Pool, Run))
    requires Roomy(caps) && RunOk(r, caps) && after == StepRun(p, r, caps, ev)
    requires Cores(r) <= p.cores <= caps.cores && Memory(r) <= p.memoryBytes <= caps.memoryBytes
    ensures RunOk(after.1, caps)
    ensures after.0.cores == p.cores + Cores(after.1) - Cores(r) <= caps.cores
    ensures after.0.memoryBytes == p.memoryBytes + Memory(after.1) - Memory(r) <= caps.memoryBytes
  {
    if r.pc.Validated? && Fits(p, r.assignment, caps) {
      assert p.cores + r.assignment.cores < TWO_32;
      assert p.memoryBytes + r.assignment.memoryBytes < TWO_64;
    }
  }

  lemma StepKeepsSound(s: System, caps: Caps, m: Move, after: System)
    requires Roomy(caps) && Sound(s, caps) && m.run < |s.runs| && after == Step(s, caps, m)
    ensures Sound(after, caps)
  {
    var r, next := s.runs[m.run], StepRun(s.pool, s.runs[m.run], caps, m.ev);
    HeldAtLeast(s.runs, m.run, |s.runs|);
    StepMovesTotals(s.pool, r, caps, m.ev, next);
    HeldUpdate(s.runs, m.run, next.1, |s.runs|);
  }

  lemma StartIsSound(s: System, caps: Caps)
    requires Start(s)
    ensures Sound(s, caps)
  {
    NothingHeld(s.runs, |s.runs|);
  }

  lemma {:induction false} InterleavingsAreSound(caps: Caps, moves: seq<Move>, trace: seq<System>, t: nat)
    requires Roomy(caps) && IsInterleaving(caps, moves, trace) && t < |trace|
    ensures Sound(trace[t], caps)
    decreases t
  {
    if t == 0 {
      StartIsSound(trace[0], caps);
    } else {
      InterleavingsAreSound(caps, moves, trace, t - 1);
      assert TraceStep(caps, moves, trace, t - 1);
      StepKeepsSound(trace[t - 1], caps, moves[t - 1], trace[t]);
    }
  }

  /** When every run has ended nothing is reserved any more, and each run has released exactly as
      often as it reserved, at most once. */
  lemma AllEndedIsIdle(caps: Caps, moves: seq<Move>, trace: seq<System>, t: nat)
    requires Roomy(caps) && IsInterleaving(caps, moves, trace) && t < |trace|
    requires forall i :: 0 <= i < |trace[t].runs| ==> trace[t].runs[i].pc.Done?
    ensures trace[t].pool == IDLE
    ensures forall i :: 0 <= i < |trace[t].runs| ==> trace[t].runs[i].releases == trace[t].runs[i].reserves <= 1
  {
    InterleavingsAreSound(caps, moves, trace, t);
    NothingHeld(trace[t].runs, |trace[t].runs|);
    forall i | 0 <= i < |trace[t].runs| ensures trace[t].runs[i].releases == trace[t].runs[i].reserves <= 1 {
      assert RunOk(trace[t].runs[i], caps);
    }
  }

  /** The host's eight cores and sixteen gibibytes are on the safe side. */
  lemma HostIsRoomy()
    ensures Roomy(HOST) && HOST.cores == 8 && HOST.memoryBytes == 17_179_869_184
  {
  }

  // ----- Exactly the roomy capacities are safe -----

  /** In no interleaving do the totals differ from what is held. */
  ghost predicate Safe(caps: Caps) {
    forall moves, trace :: IsInterleaving(caps, moves, trace) ==> Balanced(trace[|moves|], caps)
  }

  const CANCEL: Poll := Poll(true, 0, false, StillRunning)

  const GOOD: Event := Event(true, true, true, CANCEL)

  /** Two runs that both pass validation and both reserve. */
  const BOTH_RESERVE: seq<Move> := [Move(0, GOOD), Move(1, GOOD), Move(0, GOOD), Move(1, GOOD)]

  function ValidatedRun(a: Assignment): Run { Say(NewRun(a), Accepted).(pc := Validated) }
  function ReservedRun(a: Assignment): Run { ValidatedRun(a).(pc := Reserved, reserves := 1) }

  function TwoRuns(a: Assignment): seq<System> {
    var one := Reserve(IDLE, a);
    [System(IDLE, [NewRun(a), NewRun(a)]),
     System(IDLE, [ValidatedRun(a), NewRun(a)]),
     System(IDLE, [ValidatedRun(a), ValidatedRun(a)]),
     System(one, [ReservedRun(a), ValidatedRun(a)]),
     System(Reserve(one, a), [ReservedRun(a), ReservedRun(a)])]
  }

  /** If one demand fits and twice the demand wraps to something that fits, both runs get it. */
  lemma TwoRunsInterleave(caps: Caps, a: Assignment)
    requires Validate(a, caps, true) && Fits(IDLE, a, caps) && Fits(Reserve(IDLE, a), a, caps)
    ensures IsInterleaving(caps, BOTH_RESERVE, TwoRuns(a))
  {
    var trace := TwoRuns(a);
    assert TraceStep(caps, BOTH_RESERVE, trace, 0) by { assert trace[0].runs[0 := ValidatedRun(a)] == trace[1].runs; }
    assert TraceStep(caps, BOTH_RESERVE, trace, 1) by { assert trace[1].runs[1 := ValidatedRun(a)] == trace[2].runs; }
    assert TraceStep(caps, BOTH_RESERVE, trace, 2) by { assert trace[2].runs[0 := ReservedRun(a)] == trace[3].runs; }
    assert TraceStep(caps, BOTH_RESERVE, trace, 3) by { assert trace[3].runs[1 := ReservedRun(a)] == trace[4].runs; }
  }

  lemma TwoRunsHold(a: Assignment)
    ensures HeldCores(TwoRuns(a)[4].runs, 2) == 2 * a.cores && HeldMemory(TwoRuns(a)[4].runs, 2) == 2 * a.memoryBytes
  {
    var runs := TwoRuns(a)[4].runs;
    assert HeldCores(runs, 1) == a.cores && HeldMemory(runs, 1) == a.memoryBytes;
  }

  /** The unsigned sums in the reservation test can wrap: the pool is safe for exactly those hosts
      whose doubled capacity fits the counters. */
  lemma SafeIffRoomy(caps: Caps)
    ensures Safe(caps) <==> Roomy(caps)
  {
    if Roomy(caps) {
      forall moves, trace | IsInterleaving(caps, moves, trace) ensures Balanced(trace[|moves|], caps) {
        InterleavingsAreSound(caps, moves, trace, |moves|);
      }
    } else {
      var a := if 2 * caps.cores >= TWO_32 then Assignment(RUNTIME, caps.cores, 0, 0)
               else Assignment(RUNTIME, 0, caps.memoryBytes, 0);
      TwoRunsInterleave(caps, a);
      TwoRunsHold(a);
      assert !Balanced(TwoRuns(a)[|BOTH_RESERVE|], caps);
    }
  }

  // ----- What a run reports -----

  ghost predicate AllProgress(reports: seq<Report>, from: nat) {
    forall i :: from <= i < |reports| ==> reports[i].state == Progress
  }

  ghost predicate Opened(reports: seq<Report>) {
    |reports| >= 2 && reports[0].state == Accepted && reports[1].state == Started
  }

  /** Reported percentages never go down and never exceed the current one. */
  ghost predicate Rising(reports: seq<Report>, percent: nat) {
    && (forall i, j :: 0 <= i < j < |reports| ==> reports[i].percent <= reports[j].percent)
    && (forall i :: 0 <= i < |reports| ==> reports[i].percent <= percent)
  }

  /** The shape of the reports of an ended run: refused, rejected, or opened and then ended by its
      outcome, except that a failed fork ends the run without a further report. */
  ghost predicate EndedReports(r: Run, ok: bool, forkFailed: bool) {
    var n := |r.reports|;
    && n >= 1
    && (ok <==> r.reports[n - 1].state == Completed) && (ok ==> r.reports[n - 1].percent == 100)
    && if forkFailed then n == 2 && Opened(r.reports)
       else r.reports[n - 1].state in {Failed, Completed, Cancelled}
            && (n == 1 || (n == 2 && r.reports[0].state == Accepted)
                || (n >= 3 && Opened(r.reports) && AllProgress(r.reports[..n - 1], 2)))
  }

  /** What has been reported, by program point. */
  ghost predicate ReportsFit(r: Run) {
    match r.pc
    case Begin => r.reports == [] && r.percent == 0
    case Validated => |r.reports| == 1 && r.reports[0].state == Accepted && r.percent == 0
    case Reserved => |r.reports| == 1 && r.reports[0].state == Accepted && r.percent == 0
    case Piped => |r.reports| == 2 && Opened(r.reports) && r.percent == 0
    case Polling => Opened(r.reports) && AllProgress(r.reports, 2) && r.percent < 100
    case Ending(outcome) =>
      && Opened(r.reports) && AllProgress(r.reports, 2)
      && outcome in {Failed, Completed, Cancelled} && (outcome == Completed ==> r.percent == 100)
    case Done(ok, forkFailed) => EndedReports(r, ok, forkFailed)
  }

  ghost predicate ReportsOk(r: Run) {
    ReportsFit(r) && Rising(r.reports, r.percent) && r.percent <= 100
  }

  lemma SayRises(r: Run, percent: nat, state: ExecState)
    requires Rising(r.reports, r.percent) && r.percent <= percent
    ensures var said := Say(r.(percent := percent), state);
            said.percent == percent && Rising(said.reports, percent) && |said.reports| == |r.reports| + 1
            && said.reports[|r.reports|] == Report(state, percent) && said.reports[..|r.reports|] == r.reports
  {
  }

  lemma EarlyStepReports(p: Pool, r: Run, caps: Caps, ev: Event, after: Run)
    requires ReportsOk(r) && r.pc in {Begin, Validated, Reserved, Piped} && after == StepRun(p, r, caps, ev).1
    ensures ReportsOk(after)
  {
    match r.pc
    case Begin =>
      SayRises(r, r.percent, Accepted);
      SayRises(r, r.percent, Failed);
    case Validated => SayRises(r, r.percent, Failed);
    case Reserved =>
      SayRises(r, r.percent, Started);
      SayRises(r, r.percent, Failed);
    case Piped =>
  }

  lemma OutputReports(r: Run, output: bool, after: Run)
    requires ReportsOk(r) && r.pc == Polling && after == AfterOutput(r, output)
    ensures ReportsOk(after) && after.pc == Polling
  {
    SayRises(r, if r.percent < 90 then r.percent + 10 else r.percent, Progress);
  }

  lemma PollReports(r: Run, poll: Poll, after: Run)
    requires ReportsOk(r) && r.pc == Polling && after == AfterPoll(r, poll)
    ensures ReportsOk(after)
  {
    if !poll.cancel && poll.elapsedSeconds < r.assignment.timeoutSeconds {
      OutputReports(r, poll.output, AfterOutput(r, poll.output));
    }
  }

  lemma EndingReports(p: Pool, r: Run, caps: Caps, ev: Event, after: Run)
    requires ReportsOk(r) && r.pc.Ending? && after == StepRun(p, r, caps, ev).1
    ensures ReportsOk(after)
  {
    SayRises(r, r.percent, r.pc.outcome);
    assert after.reports[..|after.reports| - 1] == r.reports;
    assert Opened(after.reports);
  }

  lemma StepKeepsReports(p: Pool, r: Run, caps: Caps, ev: Event, after: Run)
    requires ReportsOk(r) && after == StepRun(p, r, caps, ev).1
    ensures ReportsOk(after)
  {
    match r.pc
    case Polling => PollReports(r, ev.poll, after);
    case Ending(_) => EndingReports(p, r, caps, ev, after);
    case Done(_, _) =>
    case _ => EarlyStepReports(p, r, caps, ev, after);
  }

  /** In every interleaving every run's reports have the documented shape, with rising percentages. */
  lemma {:induction false} InterleavingsReport(caps: Caps, moves: seq<Move>, trace: seq<System>, t: nat)
    requires IsInterleaving(caps, moves, trace) && t < |trace|
    ensures forall i :: 0 <= i < |trace[t].runs| ==> ReportsOk(trace[t].runs[i])
    decreases t
  {
    if t == 0 {
      forall i | 0 <= i < |trace[0].runs| ensures ReportsOk(trace[0].runs[i]) {
        assert trace[0].runs[i] == NewRun(trace[0].runs[i].assignment);
      }
    } else {
      InterleavingsReport(caps, moves, trace, t - 1);
      assert TraceStep(caps, moves, trace, t - 1);
      var s, m := trace[t - 1], moves[t - 1];
      assert ReportsOk(s.runs[m.run]);
      StepKeepsReports(s.pool, s.runs[m.run], caps, m.ev, trace[t].runs[m.run]);
    }
  }

  /** Move t is the fork of run i, and it fails. */
  ghost predicate ForkFails(moves: seq<Move>, trace: seq<System>, i: nat, t: int)
    requires 0 <= t < |moves| && |trace| == |moves| + 1
  {
    moves[t].run == i && i < |trace[t].runs| && trace[t].runs[i].pc == Piped && !moves[t].ev.forkOk
  }

  /** A run has ended in a failed fork exactly when one of the moves so far was that fork. */
  lemma {:induction false} ForkFailedIff(caps: Caps, moves: seq<Move>, trace: seq<System>, t: nat, i: nat)
    requires IsInterleaving(caps, moves, trace) && t < |trace| && i < |trace[t].runs|
    ensures trace[t].runs[i].pc == Done(false, true) <==> exists u :: 0 <= u < t && ForkFails(moves, trace, i, u)
    ensures trace[t].runs[i].pc.Done? && trace[t].runs[i].pc.forkFailed ==> !trace[t].runs[i].pc.ok
    decreases t
  {
    if t == 0 {
      assert trace[0].runs[i] == NewRun(trace[0].runs[i].assignment);
    } else {
      assert TraceStep(caps, moves, trace, t - 1);
      ForkFailedIff(caps, moves, trace, t - 1, i);
      assert trace[t].runs[i].pc == Done(false, true) <==>
             trace[t - 1].runs[i].pc == Done(false, true) || ForkFails(moves, trace, i, t - 1);
    }
  }

  /** An ended run's last report names its outcome if and only if its fork did not fail: the failed fork
      is the one ending that is never reported. The result is success exactly when the last report is a
      completion. */
  lemma OutcomeReportedIff(caps: Caps, moves: seq<Move>, trace: seq<System>, t: nat, i: nat)
    requires IsInterleaving(caps, moves, trace) && t < |trace| && i < |trace[t].runs| && trace[t].runs[i].pc.Done?
    ensures var r := trace[t].runs[i];
            && |r.reports| > 0
            && (r.reports[|r.reports| - 1].state in {Failed, Completed, Cancelled} <==>
                forall u :: 0 <= u < t ==> !ForkFails(moves, trace, i, u))
            && (r.pc.ok <==> r.reports[|r.reports| - 1].state == Completed)
  {
    InterleavingsReport(caps, moves, trace, t);
    ForkFailedIff(caps, moves, trace, t, i);
    var r := trace[t].runs[i];
    assert ReportsOk(r);
  }

  const NO_FORK: Event := Event(true, true, false, CANCEL)

  /** The four moves of a run whose fork fails. */
  const UNTIL_FORK: seq<Move> := [Move(0, NO_FORK), Move(0, NO_FORK), Move(0, NO_FORK), Move(0, NO_FORK)]

  function PipedRun(a: Assignment): Run { Say(ReservedRun(a), Started).(pc := Piped) }

  function ForkFailure(a: Assignment): seq<System> {
    var held := Reserve(IDLE, a);
    [System(IDLE, [NewRun(a)]), System(IDLE, [ValidatedRun(a)]), System(held, [ReservedRun(a)]),
     System(held, [PipedRun(a)]), System(Release(held, a), [PipedRun(a).(pc := Done(false, true), releases := 1)])]
  }

  /** Every assignment the host can take has such a run: it ends, having given everything back, and the
      last the caller hears of it is that it was started. */
  lemma UnreportedFailure(caps: Caps, a: Assignment)
    requires Validate(a, caps, true)
    ensures IsInterleaving(caps, UNTIL_FORK, ForkFailure(a))
    ensures var s := ForkFailure(a)[4];
            && s.pool == IDLE && s.runs[0].pc.Done? && !s.runs[0].pc.ok
            && s.runs[0].reports == [Report(Accepted, 0), Report(Started, 0)]
  {
    var trace := ForkFailure(a);
    assert TraceStep(caps, UNTIL_FORK, trace, 0) by { assert trace[0].runs[0 := ValidatedRun(a)] == trace[1].runs; }
    assert TraceStep(caps, UNTIL_FORK, trace, 1) by { assert trace[1].runs[0 := ReservedRun(a)] == trace[2].runs; }
    assert TraceStep(caps, UNTIL_FORK, trace, 2) by { assert trace[2].runs[0 := PipedRun(a)] == trace[3].runs; }
    assert TraceStep(caps, UNTIL_FORK, trace, 3) by {
      assert trace[3].runs[0 := trace[4].runs[0]] == trace[4].runs;
    }
  }
}
