/** What the outcome and the reports of an executor run are, from what its environment does
    (worker/src/executor.c): a closed account that does not go through the steps of the run. */
module ExecutorOutcome {
  import opened MachineInts
  import opened Options
  import opened ExecutorModel

  // ----- Observations -----

  /** The round ends the polling: a cancellation, the timeout, or a child that is no longer running. */
  predicate Decides(poll: Poll, timeoutSeconds: u32) {
    poll.cancel || poll.elapsedSeconds >= timeoutSeconds || poll.exit != StillRunning
  }

  /** Neither cancellation nor timeout came first, so the round looks at the child. */
  predicate Looks(poll: Poll, timeoutSeconds: u32) {
    !poll.cancel && poll.elapsedSeconds < timeoutSeconds
  }

  /** The child ended by itself with exit code zero, in time and not cancelled. */
  predicate Succeeds(poll: Poll, timeoutSeconds: u32) {
    Looks(poll, timeoutSeconds) && poll.exit == Exited(0)
  }

  /** The first round from i on that decides, or the number of rounds. */
  function FirstDeciding(polls: seq<Poll>, timeoutSeconds: u32, i: nat): (k: nat)
    requires i <= |polls|
    ensures i <= k <= |polls| && (k < |polls| ==> Decides(polls[k], timeoutSeconds))
    ensures forall j :: i <= j < k ==> !Decides(polls[j], timeoutSeconds)
    decreases |polls| - i
  {
    if i == |polls| || Decides(polls[i], timeoutSeconds) then i else FirstDeciding(polls, timeoutSeconds, i + 1)
  }

  predicate Heard(poll: Poll, timeoutSeconds: u32) { Looks(poll, timeoutSeconds) && poll.output }

  /** How many of the first n rounds heard output. */
  function Outputs(polls: seq<Poll>, timeoutSeconds: u32, n: nat): nat
    requires n <= |polls|
  {
    if n == 0 then 0 else Outputs(polls, timeoutSeconds, n - 1) + if Heard(polls[n - 1], timeoutSeconds) then 1 else 0
  }

  // ----- Reports -----

  /** The percentage after n outputs. */
  function Percent(n: nat): nat { if n < 9 then 10 * n else 90 }

  /** Accepted, started, and one progress report for each of n outputs. */
  function Told(n: nat): (r: seq<Report>)
    ensures |r| == n + 2
  {
    [Report(Accepted, 0), Report(Started, 0)] + seq(n, i requires 0 <= i < n => Report(Progress, Percent(i + 1)))
  }

  lemma ToldNext(n: nat)
    ensures Told(n + 1) == Told(n) + [Report(Progress, Percent(n + 1))]
  {
  }

  /** The last report of a run whose polling was ended by the given round, after n outputs. */
  function LastReport(poll: Poll, timeoutSeconds: u32, n: nat): Report {
    if poll.cancel then Report(Cancelled, Percent(n))
    else if Succeeds(poll, timeoutSeconds) then Report(Completed, 100)
    else Report(Failed, Percent(n))
  }

  /** The state of a run that has heard n outputs and whose polling was ended by the given round, if it
      has ended. */
  ghost predicate Account(r: Run, n: nat, last: Option<Poll>) {
    var timeout := r.assignment.timeoutSeconds;
    match r.pc
    case Begin => n == 0 && last == None && r.reports == [] && r.percent == 0
    case Validated => n == 0 && last == None && r.reports == [Report(Accepted, 0)] && r.percent == 0
    case Reserved => n == 0 && last == None && r.reports == [Report(Accepted, 0)] && r.percent == 0
    case Piped => n == 0 && last == None && r.reports == Told(0) && r.percent == 0
    case Polling => last == None && r.reports == Told(n) && r.percent == Percent(n)
    case Ending(outcome) =>
      && last.Some? && Decides(last.value, timeout) && r.reports == Told(n)
      && Report(outcome, r.percent) == LastReport(last.value, timeout, n)
    case Done(ok, forkFailed) =>
      if last == None then
        && n == 0 && !ok
        && (r.reports == Told(0) <==> forkFailed)
        && (forkFailed || r.reports == [Report(Failed, 0)] || r.reports == [Report(Accepted, 0), Report(Failed, 0)])
      else
        && !forkFailed && Decides(last.value, timeout) && (ok <==> Succeeds(last.value, timeout))
        && r.reports == Told(n) + [LastReport(last.value, timeout, n)]
  }

  /** The outputs heard and the deciding round after a further step. */
  function OutputsAfter(r: Run, ev: Event, n: nat): nat {
    if r.pc == Polling && Heard(ev.poll, r.assignment.timeoutSeconds) then n + 1 else n
  }

  function LastAfter(r: Run, ev: Event, last: Option<Poll>): Option<Poll> {
    if r.pc == Polling && Decides(ev.poll, r.assignment.timeoutSeconds) then Some(ev.poll) else last
  }

  lemma PollAccount(r: Run, poll: Poll, n: nat, after: Run)
    requires r.pc == Polling && Account(r, n, None) && after == AfterPoll(r, poll)
    ensures var timeout := r.assignment.timeoutSeconds;
            Account(after, if Heard(poll, timeout) then n + 1 else n,
                    if Decides(poll, timeout) then Some(poll) else None)
  {
    ToldNext(n);
  }

  lemma StepAccount(p: Pool, r: Run, caps: Caps, ev: Event, n: nat, last: Option<Poll>, after: Run)
    requires Account(r, n, last) && after == StepRun(p, r, caps, ev).1
    ensures Account(after, OutputsAfter(r, ev, n), LastAfter(r, ev, last)) && after.assignment == r.assignment
  {
    match r.pc
    case Polling => PollAccount(r, ev.poll, n, after);
    case Reserved => PipeAccount(p, r, caps, ev, after);
    case Piped =>
    case Ending(_) =>
    case Done(_, _) =>
    case _ => EarlyAccount(p, r, caps, ev, after);
  }

  lemma EarlyAccount(p: Pool, r: Run, caps: Caps, ev: Event, after: Run)
    requires Account(r, 0, None) && r.pc in {Begin, Validated} && after == StepRun(p, r, caps, ev).1
    ensures Account(after, 0, None)
  {
    assert Told(0)[0].state == Accepted && Told(0)[1].state == Started;
  }

  lemma PipeAccount(p: Pool, r: Run, caps: Caps, ev: Event, after: Run)
    requires Account(r, 0, None) && r.pc == Reserved && after == StepRun(p, r, caps, ev).1
    ensures Account(after, 0, None)
  {
    assert Told(0) == [Report(Accepted, 0), Report(Started, 0)];
    assert Told(0)[1].state == Started;
  }

  // ----- One run under a given environment -----

  /** What the environment does to one run; some round ends the polling, at the latest the timeout. */
  datatype Env = Env(executable: bool, pipeOk: bool, forkOk: bool, polls: seq<Poll>)

  ghost predicate Terminates(env: Env, timeoutSeconds: u32) {
    FirstDeciding(env.polls, timeoutSeconds, 0) < |env.polls|
  }

  /** The assignment is one the host can take at all. */
  predicate Acceptable(a: Assignment, caps: Caps, env: Env) {
    a.runtime == "posix_subproc" && env.executable && a.cores <= caps.cores && a.memoryBytes <= caps.memoryBytes
  }

  /** Both unsigned sums with what is reserved already are within the capacity. */
  predicate HasRoom(pool: Pool, a: Assignment, caps: Caps) {
    && (pool.cores + a.cores) % TWO_32 <= caps.cores
    && (pool.memoryBytes + a.memoryBytes) % TWO_64 <= caps.memoryBytes
  }

  /** The reports of the run, from the environment alone. */
  ghost function ExpectedReports(pool: Pool, a: Assignment, caps: Caps, env: Env): seq<Report>
    requires Terminates(env, a.timeoutSeconds)
  {
    if !Acceptable(a, caps, env) then [Report(Failed, 0)]
    else if !HasRoom(pool, a, caps) then [Report(Accepted, 0), Report(Failed, 0)]
    else ReservedReports(a, env)
  }

  ghost function ReservedReports(a: Assignment, env: Env): seq<Report>
    requires Terminates(env, a.timeoutSeconds)
  {
    if !env.pipeOk then [Report(Accepted, 0), Report(Failed, 0)]
    else if !env.forkOk then [Report(Accepted, 0), Report(Started, 0)]
    else
      var k := FirstDeciding(env.polls, a.timeoutSeconds, 0);
      var n := Outputs(env.polls, a.timeoutSeconds, k + 1);
      Told(n) + [LastReport(env.polls[k], a.timeoutSeconds, n)]
  }

  /** The run succeeds: it gets as far as polling, and the round that ends the polling finds the child
      exited with code zero. */
  ghost predicate ExpectedSuccess(pool: Pool, a: Assignment, caps: Caps, env: Env)
    requires Terminates(env, a.timeoutSeconds)
  {
    Acceptable(a, caps, env) && HasRoom(pool, a, caps) && ReservedSuccess(a, env)
  }

  ghost predicate ReservedSuccess(a: Assignment, env: Env)
    requires Terminates(env, a.timeoutSeconds)
  {
    && env.pipeOk && env.forkOk
    && Succeeds(env.polls[FirstDeciding(env.polls, a.timeoutSeconds, 0)], a.timeoutSeconds)
  }

  // ----- Interleavings -----

  /** How many of the first t moves were rounds of run i that heard output. */
  ghost function OutputMoves(moves: seq<Move>, trace: seq<System>, i: nat, t: nat): nat
    requires t <= |moves| && |trace| == |moves| + 1
  {
    if t == 0 then 0
    else if moves[t - 1].run == i && i < |trace[t - 1].runs|
    then OutputsAfter(trace[t - 1].runs[i], moves[t - 1].ev, OutputMoves(moves, trace, i, t - 1))
    else OutputMoves(moves, trace, i, t - 1)
  }

  /** Move u is a round of run i, and it ends the polling. */
  ghost predicate EndsPolling(moves: seq<Move>, trace: seq<System>, i: nat, u: int)
    requires 0 <= u < |moves| && |trace| == |moves| + 1
  {
    && moves[u].run == i && i < |trace[u].runs| && trace[u].runs[i].pc == Polling
    && Decides(moves[u].ev.poll, trace[u].runs[i].assignment.timeoutSeconds)
  }

  /** last is the round that ended the polling of run i among the first t moves, if there was one. */
  ghost predicate IsLastRound(moves: seq<Move>, trace: seq<System>, i: nat, t: nat, last: Option<Poll>)
    requires t <= |moves| && |trace| == |moves| + 1
  {
    match last
    case None => forall u :: 0 <= u < t ==> !EndsPolling(moves, trace, i, u)
    case Some(poll) => exists u :: 0 <= u < t && EndsPolling(moves, trace, i, u) && moves[u].ev.poll == poll
  }

  lemma LastRoundNext(caps: Caps, moves: seq<Move>, trace: seq<System>, i: nat, t: nat, last: Option<Poll>)
    requires IsInterleaving(caps, moves, trace) && t < |moves| && i < |trace[t].runs|
    requires IsLastRound(moves, trace, i, t, last)
    ensures IsLastRound(moves, trace, i, t + 1,
                        if EndsPolling(moves, trace, i, t) then Some(moves[t].ev.poll) else last)
  {
  }

  lemma {:induction false} InterleavingsAccount(caps: Caps, moves: seq<Move>, trace: seq<System>, t: nat, i: nat)
    returns (last: Option<Poll>)
    requires IsInterleaving(caps, moves, trace) && t < |trace| && i < |trace[t].runs|
    ensures Account(trace[t].runs[i], OutputMoves(moves, trace, i, t), last) && IsLastRound(moves, trace, i, t, last)
    decreases t
  {
    last := None;
    if t == 0 {
      assert trace[0].runs[i] == NewRun(trace[0].runs[i].assignment);
    } else {
      assert TraceStep(caps, moves, trace, t - 1);
      last := InterleavingsAccount(caps, moves, trace, t - 1, i);
      LastRoundNext(caps, moves, trace, i, t - 1, last);
      var s, m := trace[t - 1], moves[t - 1];
      if m.run == i {
        StepAccount(s.pool, s.runs[i], caps, m.ev, OutputMoves(moves, trace, i, t - 1), last, trace[t].runs[i]);
        last := LastAfter(s.runs[i], m.ev, last);
      }
    }
  }

  /** In every interleaving, the result and the reports of an ended run follow from the round that ended
      its polling and from how many of its rounds heard output: success iff the child exited with code
      zero in time and uncancelled, cancelled iff the flag was seen, failed otherwise. A run that never
      came to such a round has failed. */
  lemma EndedRunOutcome(caps: Caps, moves: seq<Move>, trace: seq<System>, t: nat, i: nat) returns (last: Option<Poll>)
    requires IsInterleaving(caps, moves, trace) && t < |trace| && i < |trace[t].runs| && trace[t].runs[i].pc.Done?
    ensures IsLastRound(moves, trace, i, t, last)
    ensures var r, n := trace[t].runs[i], OutputMoves(moves, trace, i, t);
            match last
            case None => !r.pc.ok && n == 0
            case Some(poll) =>
              && (r.pc.ok <==>
                  !poll.cancel && poll.elapsedSeconds < r.assignment.timeoutSeconds && poll.exit == Exited(0))
              && r.reports == Told(n) + [LastReport(poll, r.assignment.timeoutSeconds, n)]
  {
    last := InterleavingsAccount(caps, moves, trace, t, i);
  }
}
