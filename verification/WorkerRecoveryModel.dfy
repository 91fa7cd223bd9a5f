/** The worker's half of lease recovery as values (worker/src/recovery.c), and what holds over every
    run of its calls. */
module WorkerRecoveryModel {
  import opened MachineInts
  import opened Options

  const MAX_LEASES: nat := 16
  const CHECKSUM_CHARS: nat := 63

  datatype ChunkState = Running | Revoked | Completed | Reconciled

  datatype Entry = Entry(
    leaseId: u64,
    chunkId: u64,
    state: ChunkState,
    checksum: string,
    partialPreserved: bool,
    discardOnCancel: bool)

  datatype State = State(entries: seq<Entry>, draining: bool, connected: bool)

  const START: State := State([], false, true)

  /** The first entry for a lease from i on, or -1. */
  function EntryFrom(entries: seq<Entry>, leaseId: u64, i: nat): (k: int)
    requires i <= |entries|
    ensures k == -1 || i <= k < |entries|
    ensures k >= 0 ==> entries[k].leaseId == leaseId
    ensures forall m :: i <= m < (if k >= 0 then k else |entries|) ==> entries[m].leaseId != leaseId
    decreases |entries| - i
  {
    if i == |entries| then -1 else if entries[i].leaseId == leaseId then i else EntryFrom(entries, leaseId, i + 1)
  }

  predicate RunningFor(entry: Entry, leaseId: u64) { entry.leaseId == leaseId && entry.state == Running }

  /** The first running entry for a lease from i on, or -1. */
  function RunningFrom(entries: seq<Entry>, leaseId: u64, i: nat): (k: int)
    requires i <= |entries|
    ensures k == -1 || i <= k < |entries|
    ensures k >= 0 ==> RunningFor(entries[k], leaseId)
    ensures forall m :: i <= m < (if k >= 0 then k else |entries|) ==> !RunningFor(entries[m], leaseId)
    decreases |entries| - i
  {
    if i == |entries| then -1 else if RunningFor(entries[i], leaseId) then i else RunningFrom(entries, leaseId, i + 1)
  }

  // ----- The calls -----

  function Accept(s: State, leaseId: u64, chunkId: u64, discard: bool): (State, bool) {
    if s.draining || |s.entries| >= MAX_LEASES then (s, false)
    else (s.(entries := s.entries + [Entry(leaseId, chunkId, Running, "", false, discard)]), true)
  }

  function RevokeEntry(e: Entry): Entry {
    e.(state := Revoked, partialPreserved := !e.discardOnCancel)
  }

  function Revoke(s: State, leaseId: u64): State {
    var k := EntryFrom(s.entries, leaseId, 0);
    if k < 0 then s else s.(entries := s.entries[k := RevokeEntry(s.entries[k])])
  }

  function Stored(checksum: string): string {
    if |checksum| <= CHECKSUM_CHARS then checksum else checksum[..CHECKSUM_CHARS]
  }

  function Complete(s: State, leaseId: u64, checksum: string): State {
    var k := RunningFrom(s.entries, leaseId, 0);
    if k < 0 then s
    else s.(entries := s.entries[k := s.entries[k].(state := Completed, checksum := Stored(checksum))])
  }

  predicate Claimable(e: Entry) { e.state == Reconciled || e.state == Completed }

  function Claim(s: State, leaseId: u64): Option<string> {
    var k := EntryFrom(s.entries, leaseId, 0);
    if k < 0 || !Claimable(s.entries[k]) then None else Some(s.entries[k].checksum)
  }

  /** What becomes of an entry at reconciliation, if it is kept. */
  function ReconcileEntry(e: Entry, auth: seq<u64>): Option<Entry> {
    if e.leaseId in auth then Some(if e.state == Completed then e.(state := Reconciled) else e)
    else match e.state
      case Running => Some(RevokeEntry(e))
      case Revoked => Some(e)
      case Completed => None
      case Reconciled => None
  }

  function Kept(e: Option<Entry>): seq<Entry> { if e.Some? then [e.value] else [] }

  /** The entries kept from the first n, in order. */
  function KeptFrom(entries: seq<Entry>, auth: seq<u64>, n: nat): (r: seq<Entry>)
    requires n <= |entries|
    ensures |r| <= n
  {
    if n == 0 then [] else KeptFrom(entries, auth, n - 1) + Kept(ReconcileEntry(entries[n - 1], auth))
  }

  function Reconcile(s: State, auth: seq<u64>): State {
    s.(connected := true, entries := KeptFrom(s.entries, auth, |s.entries|))
  }

  datatype Op =
    | AcceptOp(leaseId: u64, chunkId: u64, discard: bool)
    | RevokeOp(leaseId: u64)
    | CompleteOp(leaseId: u64, checksum: string)
    | DrainOp(draining: bool)
    | DisconnectOp
    | ReconcileOp(auth: seq<u64>)

  function Step(s: State, op: Op): State {
    match op
    case AcceptOp(leaseId, chunkId, discard) => Accept(s, leaseId, chunkId, discard).0
    case RevokeOp(leaseId) => Revoke(s, leaseId)
    case CompleteOp(leaseId, checksum) => Complete(s, leaseId, checksum)
    case DrainOp(draining) => s.(draining := draining)
    case DisconnectOp => s.(connected := false)
    case ReconcileOp(auth) => Reconcile(s, auth)
  }

  ghost predicate RunStep(ops: seq<Op>, trace: seq<State>, t: int)
    requires 0 <= t < |ops| && |trace| == |ops| + 1
  {
    trace[t + 1] == Step(trace[t], ops[t])
  }

  /** A run of calls from any state. */
  ghost predicate IsRun(ops: seq<Op>, trace: seq<State>) {
    |trace| == |ops| + 1 && forall t :: 0 <= t < |ops| ==> RunStep(ops, trace, t)
  }

  // ----- Reconciliation -----

  /** Every kept entry comes from an entry of the list, and every entry that is kept is there. */
  lemma {:induction false} KeptExactly(entries: seq<Entry>, auth: seq<u64>, n: nat, e: Entry)
    requires n <= |entries|
    ensures e in KeptFrom(entries, auth, n) <==> exists i :: 0 <= i < n && ReconcileEntry(entries[i], auth) == Some(e)
    decreases n
  {
    if n > 0 {
      KeptExactly(entries, auth, n - 1, e);
      var before, last := KeptFrom(entries, auth, n - 1), Kept(ReconcileEntry(entries[n - 1], auth));
      assert e in before + last <==> e in before || e in last;
      assert e in last <==> ReconcileEntry(entries[n - 1], auth) == Some(e);
    }
  }

  /** An entry that was kept is left alone by another reconciliation with the same list. */
  lemma KeptIsStable(e: Entry, auth: seq<u64>)
    requires ReconcileEntry(e, auth).Some?
    ensures ReconcileEntry(ReconcileEntry(e, auth).value, auth) == ReconcileEntry(e, auth)
  {
  }

  lemma {:induction false} StableIsKept(entries: seq<Entry>, auth: seq<u64>, n: nat)
    requires n <= |entries|
    requires forall i :: 0 <= i < n ==> ReconcileEntry(entries[i], auth) == Some(entries[i])
    ensures KeptFrom(entries, auth, n) == entries[..n]
    decreases n
  {
    if n > 0 {
      StableIsKept(entries, auth, n - 1);
      assert entries[..n] == entries[..n - 1] + [entries[n - 1]];
    }
  }

  /** Reconciling twice against the same authoritative list is the same as once. */
  lemma ReconcileIdempotent(s: State, auth: seq<u64>)
    ensures Reconcile(Reconcile(s, auth), auth) == Reconcile(s, auth)
  {
    var kept := Reconcile(s, auth).entries;
    forall i | 0 <= i < |kept| ensures ReconcileEntry(kept[i], auth) == Some(kept[i]) {
      KeptExactly(s.entries, auth, |s.entries|, kept[i]);
      assert kept[i] in kept;
      var j :| 0 <= j < |s.entries| && ReconcileEntry(s.entries[j], auth) == Some(kept[i]);
      KeptIsStable(s.entries[j], auth);
    }
    StableIsKept(kept, auth, |kept|);
    assert kept[..|kept|] == kept;
  }

  /** After reconciliation only authoritative leases can be claimed, and none is still running without
      the master's knowledge. */
  lemma OnlyAuthoritativeClaimable(s: State, auth: seq<u64>, leaseId: u64)
    ensures Claim(Reconcile(s, auth), leaseId).Some? ==> leaseId in auth
    ensures forall e :: e in Reconcile(s, auth).entries && e.leaseId !in auth ==> e.state == Revoked
  {
    var kept := Reconcile(s, auth).entries;
    forall e | e in kept && e.leaseId !in auth ensures e.state == Revoked {
      KeptExactly(s.entries, auth, |s.entries|, e);
      var j :| 0 <= j < |s.entries| && ReconcileEntry(s.entries[j], auth) == Some(e);
    }
    var k := EntryFrom(kept, leaseId, 0);
    if k >= 0 {
      assert kept[k] in kept;
    }
  }

  // ----- The first entry of a lease through every call -----

  /** The entry that calls about a lease id find. */
  ghost predicate Finds(entries: seq<Entry>, leaseId: u64, e: Entry) {
    var k := EntryFrom(entries, leaseId, 0);
    k >= 0 && entries[k] == e
  }

  /** Up to the first entry of a lease nothing of that lease is kept; from there on, the first kept
      entry is what became of it (if it is kept). */
  lemma {:induction false} FirstSurvives(entries: seq<Entry>, auth: seq<u64>, n: nat, leaseId: u64, k: nat, e: Entry)
    requires n <= |entries| && k == EntryFrom(entries, leaseId, 0) && ReconcileEntry(entries[k], auth) == Some(e)
    ensures n <= k ==> EntryFrom(KeptFrom(entries, auth, n), leaseId, 0) == -1
    ensures n > k ==> Finds(KeptFrom(entries, auth, n), leaseId, e)
    decreases n
  {
    if n > 0 {
      FirstSurvives(entries, auth, n - 1, leaseId, k, e);
      SnocFinds(KeptFrom(entries, auth, n - 1), Kept(ReconcileEntry(entries[n - 1], auth)), leaseId);
    }
  }

  /** Appending at most one entry leaves the first entry of a lease in place. */
  lemma SnocFinds(entries: seq<Entry>, more: seq<Entry>, leaseId: u64)
    requires |more| <= 1
    ensures EntryFrom(entries, leaseId, 0) >= 0 ==>
        EntryFrom(entries + more, leaseId, 0) == EntryFrom(entries, leaseId, 0)
    ensures EntryFrom(entries, leaseId, 0) == -1 ==>
              EntryFrom(entries + more, leaseId, 0)
              == if |more| == 1 && more[0].leaseId == leaseId then |entries| else -1
  {
    assert forall m :: 0 <= m < |entries| ==> (entries + more)[m] == entries[m];
    assert |more| == 1 ==> (entries + more)[|entries|] == more[0];
  }

  /** If the first entry of an unauthoritative lease is dropped, nothing claimable of it is left. */
  lemma DroppedNotClaimable(s: State, auth: seq<u64>, leaseId: u64)
    requires leaseId !in auth
    ensures Claim(Reconcile(s, auth), leaseId) == None
  {
    OnlyAuthoritativeClaimable(s, auth, leaseId);
  }

  lemma UpdateFinds(entries: seq<Entry>, i: nat, e: Entry, leaseId: u64)
    requires i < |entries| && e.leaseId == entries[i].leaseId
    ensures EntryFrom(entries[i := e], leaseId, 0) == EntryFrom(entries, leaseId, 0)
  {
    assert forall m :: 0 <= m < |entries| ==> entries[i := e][m].leaseId == entries[m].leaseId;
  }

  // ----- Revocation is final -----

  /** The same lease of the same chunk, revoked. */
  ghost predicate StaysRevoked(before: Entry, after: Entry) {
    && after.state == Revoked && after.leaseId == before.leaseId && after.chunkId == before.chunkId
    && after.checksum == before.checksum && after.discardOnCancel == before.discardOnCancel
  }

  lemma StepKeepsRevoked(s: State, op: Op, leaseId: u64, e: Entry, after: State) returns (e': Entry)
    requires Finds(s.entries, leaseId, e) && e.state == Revoked && after == Step(s, op)
    ensures Finds(after.entries, leaseId, e') && StaysRevoked(e, e')
  {
    var k := EntryFrom(s.entries, leaseId, 0);
    e' := e;
    match op
    case AcceptOp(l, c, d) =>
      if after != s {
        SnocFinds(s.entries, [Entry(l, c, Running, "", false, d)], leaseId);
      }
    case RevokeOp(l) =>
      var i := EntryFrom(s.entries, l, 0);
      if i >= 0 {
        UpdateFinds(s.entries, i, RevokeEntry(s.entries[i]), leaseId);
        e' := after.entries[k];
      }
    case CompleteOp(l, sum) =>
      var i := RunningFrom(s.entries, l, 0);
      if i >= 0 {
        UpdateFinds(s.entries, i, after.entries[i], leaseId);
      }
    case DrainOp(_) =>
    case DisconnectOp =>
    case ReconcileOp(auth) =>
      FirstSurvives(s.entries, auth, |s.entries|, leaseId, k, e);
  }

  /** Once the first entry of a lease is revoked it is never evicted, and no later claim on the lease
      succeeds, whatever calls follow. */
  lemma {:induction false} RevocationIsFinal(ops: seq<Op>, trace: seq<State>, t: nat, leaseId: u64, e: Entry)
      returns (e': Entry)
    requires IsRun(ops, trace) && t < |trace|
    requires Finds(trace[0].entries, leaseId, e) && e.state == Revoked
    ensures Finds(trace[t].entries, leaseId, e') && StaysRevoked(e, e')
    ensures Claim(trace[t], leaseId) == None
    decreases t
  {
    e' := e;
    if t > 0 {
      e' := RevocationIsFinal(ops, trace, t - 1, leaseId, e);
      assert RunStep(ops, trace, t - 1);
      e' := StepKeepsRevoked(trace[t - 1], ops[t - 1], leaseId, e', trace[t]);
    }
  }

  // ----- Finished results stay claimable until revoked or disowned -----

  /** The call takes the result of the lease away: it revokes it, or reconciles without it. */
  predicate Withdraws(op: Op, leaseId: u64) {
    match op
    case RevokeOp(l) => l == leaseId
    case ReconcileOp(auth) => leaseId !in auth
    case _ => false
  }

  /** A claimable result is still claimable, with the same checksum, exactly when the call does not
      withdraw it. */
  lemma ClaimSurvivesIff(s: State, op: Op, leaseId: u64, checksum: string)
    requires Claim(s, leaseId) == Some(checksum)
    ensures Claim(Step(s, op), leaseId) == if Withdraws(op, leaseId) then None else Some(checksum)
  {
    var k := EntryFrom(s.entries, leaseId, 0);
    var after := Step(s, op);
    match op
    case AcceptOp(l, c, d) =>
      if after != s {
        SnocFinds(s.entries, [Entry(l, c, Running, "", false, d)], leaseId);
      }
    case RevokeOp(l) =>
      var i := EntryFrom(s.entries, l, 0);
      if i >= 0 {
        UpdateFinds(s.entries, i, RevokeEntry(s.entries[i]), leaseId);
      }
    case CompleteOp(l, sum) =>
      var i := RunningFrom(s.entries, l, 0);
      if i >= 0 {
        UpdateFinds(s.entries, i, after.entries[i], leaseId);
      }
    case DrainOp(_) =>
    case DisconnectOp =>
    case ReconcileOp(auth) =>
      if leaseId in auth {
        FirstSurvives(s.entries, auth, |s.entries|, leaseId, k, ReconcileEntry(s.entries[k], auth).value);
      } else {
        DroppedNotClaimable(s, auth, leaseId);
      }
  }

  /** A claim yields the checksum the chunk was completed with, cut to the buffer. */
  lemma CompleteThenClaim(s: State, leaseId: u64, checksum: string)
    requires EntryFrom(s.entries, leaseId, 0) >= 0 && s.entries[EntryFrom(s.entries, leaseId, 0)].state == Running
    ensures Claim(Complete(s, leaseId, checksum), leaseId)
         == Some(if |checksum| <= 63 then checksum else checksum[..63])
  {
    var k := EntryFrom(s.entries, leaseId, 0);
    assert RunningFrom(s.entries, leaseId, 0) == k;
    UpdateFinds(s.entries, k, s.entries[k].(state := Completed, checksum := Stored(checksum)), leaseId);
  }

  // ----- Invariants of every run -----

  /** Partial output is kept exactly for revoked chunks whose policy does not discard it. */
  ghost predicate PolicyKept(entries: seq<Entry>) {
    forall i :: 0 <= i < |entries| ==>
        entries[i].partialPreserved == (entries[i].state == Revoked && !entries[i].discardOnCancel)
  }

  ghost predicate Valid(s: State) { |s.entries| <= MAX_LEASES && PolicyKept(s.entries) }

  lemma StepKeepsValid(s: State, op: Op, after: State)
    requires Valid(s) && after == Step(s, op)
    ensures Valid(after)
  {
    if op.ReconcileOp? {
      forall i | 0 <= i < |after.entries|
        ensures after.entries[i].partialPreserved
            == (after.entries[i].state == Revoked && !after.entries[i].discardOnCancel)
      {
        assert after.entries[i] in after.entries;
        KeptExactly(s.entries, op.auth, |s.entries|, after.entries[i]);
        var j :| 0 <= j < |s.entries| && ReconcileEntry(s.entries[j], op.auth) == Some(after.entries[i]);
      }
    }
  }

  /** In every run from the start the table keeps its bound and the cancellation policy. */
  lemma {:induction false} RunsAreValid(ops: seq<Op>, trace: seq<State>, t: nat)
    requires IsRun(ops, trace) && trace[0] == START && t < |trace|
    ensures Valid(trace[t])
    decreases t
  {
    if t > 0 {
      RunsAreValid(ops, trace, t - 1);
      assert RunStep(ops, trace, t - 1);
      StepKeepsValid(trace[t - 1], ops[t - 1], trace[t]);
    }
  }

  // ----- Revoked entries use up the table -----

  /** How many of the first n entries are revoked. */
  function RevokedIn(entries: seq<Entry>, n: nat): (count: nat)
    requires n <= |entries|
    ensures count <= n
  {
    if n == 0 then 0 else RevokedIn(entries, n - 1) + if entries[n - 1].state == Revoked then 1 else 0
  }

  function RevokedCount(s: State): nat { RevokedIn(s.entries, |s.entries|) }

  lemma {:induction false} RevokedPointwise(a: seq<Entry>, b: seq<Entry>, n: nat)
    requires n <= |a| && n <= |b|
    requires forall i :: 0 <= i < n && a[i].state == Revoked ==> b[i].state == Revoked
    ensures RevokedIn(a, n) <= RevokedIn(b, n)
    decreases n
  {
    if n > 0 {
      RevokedPointwise(a, b, n - 1);
    }
  }

  lemma RevokedAppend(a: seq<Entry>, more: seq<Entry>)
    requires |more| <= 1
    ensures RevokedIn(a + more, |a + more|)
         == RevokedIn(a, |a|) + if |more| == 1 && more[0].state == Revoked then 1 else 0
  {
    var all := a + more;
    RevokedPointwise(a, all, |a|);
    RevokedPointwise(all, a, |a|);
    assert |more| == 1 ==> all[|a|] == more[0];
    assert |more| == 0 ==> all == a;
  }

  /** Reconciliation keeps every revoked entry. */
  lemma {:induction false} RevokedAreKept(entries: seq<Entry>, auth: seq<u64>, n: nat)
    requires n <= |entries|
    ensures var kept := KeptFrom(entries, auth, n); RevokedIn(entries, n) <= RevokedIn(kept, |kept|)
    decreases n
  {
    if n > 0 {
      RevokedAreKept(entries, auth, n - 1);
      RevokedAppend(KeptFrom(entries, auth, n - 1), Kept(ReconcileEntry(entries[n - 1], auth)));
    }
  }

  lemma StepKeepsRevokedCount(s: State, op: Op, after: State)
    requires after == Step(s, op)
    ensures RevokedCount(s) <= RevokedCount(after)
  {
    match op
    case AcceptOp(l, c, d) =>
      if after != s {
        RevokedAppend(s.entries, [Entry(l, c, Running, "", false, d)]);
      }
    case ReconcileOp(auth) => RevokedAreKept(s.entries, auth, |s.entries|);
    case _ => RevokedPointwise(s.entries, after.entries, |s.entries|);
  }

  /** Through every run the number of revoked entries never falls: no call ever frees one. */
  lemma {:induction false} RevokedNeverFreed(ops: seq<Op>, trace: seq<State>, t: nat, u: nat)
    requires IsRun(ops, trace) && t <= u < |trace|
    ensures RevokedCount(trace[t]) <= RevokedCount(trace[u])
    decreases u - t
  {
    if t < u {
      RevokedNeverFreed(ops, trace, t, u - 1);
      assert RunStep(ops, trace, u - 1);
      StepKeepsRevokedCount(trace[u - 1], ops[u - 1], trace[u]);
    }
  }

  /** All slots are taken by revoked entries. */
  ghost predicate Exhausted(s: State) { RevokedCount(s) >= MAX_LEASES }

  /** So once revoked entries fill the table, no chunk is accepted any more, whatever calls follow. */
  lemma ExhaustionIsFinal(ops: seq<Op>, trace: seq<State>, t: nat, leaseId: u64, chunkId: u64, discard: bool)
    requires IsRun(ops, trace) && Exhausted(trace[0]) && t < |trace|
    ensures Exhausted(trace[t]) && !Accept(trace[t], leaseId, chunkId, discard).1
  {
    RevokedNeverFreed(ops, trace, 0, t);
  }

  lemma RunSnoc(ops: seq<Op>, trace: seq<State>, op: Op, next: State)
    requires IsRun(ops, trace) && next == Step(trace[|ops|], op)
    ensures IsRun(ops + [op], trace + [next])
  {
    var ops', trace' := ops + [op], trace + [next];
    forall t | 0 <= t < |ops'| ensures RunStep(ops', trace', t) {
      if t < |ops| {
        assert RunStep(ops, trace, t);
      }
    }
  }

  /** Accepting a chunk under a new lease and having it revoked adds a revoked entry. */
  lemma AcceptThenRevoke(s: State, n: nat, accepted: State, revoked: State)
    requires !s.draining && |s.entries| == n < MAX_LEASES && (forall i :: 0 <= i < n ==> s.entries[i].leaseId == i)
    requires accepted == Step(s, AcceptOp(n, n, true)) && revoked == Step(accepted, RevokeOp(n))
    ensures !revoked.draining && |revoked.entries| == n + 1
    ensures forall i :: 0 <= i < n + 1 ==> revoked.entries[i].leaseId == i
    ensures RevokedCount(revoked) >= RevokedCount(s) + 1
  {
    assert accepted.entries[n].leaseId == n;
    assert forall m :: 0 <= m < n ==> accepted.entries[m] == s.entries[m];
    assert EntryFrom(accepted.entries, n, 0) == n;
    var last := revoked.entries[n];
    assert revoked.entries == s.entries + [last];
    RevokedAppend(s.entries, [last]);
  }

  /** After n leases, each accepted and then revoked, n entries are lost. */
  lemma {:induction false} RevokedRun(n: nat) returns (ops: seq<Op>, trace: seq<State>)
    requires n <= MAX_LEASES
    ensures IsRun(ops, trace) && trace[0] == START
    ensures var s := trace[|ops|];
            && !s.draining && |s.entries| == n && (forall i :: 0 <= i < n ==> s.entries[i].leaseId == i)
            && RevokedCount(s) >= n
  {
    if n == 0 {
      ops, trace := [], [START];
    } else {
      ops, trace := RevokedRun(n - 1);
      var accepted := Step(trace[|ops|], AcceptOp(n - 1, n - 1, true));
      var revoked := Step(accepted, RevokeOp(n - 1));
      AcceptThenRevoke(trace[|ops|], n - 1, accepted, revoked);
      RunSnoc(ops, trace, AcceptOp(n - 1, n - 1, true), accepted);
      ops, trace := ops + [AcceptOp(n - 1, n - 1, true)], trace + [accepted];
      RunSnoc(ops, trace, RevokeOp(n - 1), revoked);
      ops, trace := ops + [RevokeOp(n - 1)], trace + [revoked];
    }
  }

  /** Sixteen revocations exhaust a new worker. */
  lemma ExhaustionIsReached() returns (ops: seq<Op>, trace: seq<State>)
    ensures IsRun(ops, trace) && trace[0] == START && Exhausted(trace[|ops|])
  {
    ops, trace := RevokedRun(MAX_LEASES);
  }

  // ----- Exactly the exhausted workers never serve again -----

  /** Some continuation leads to a state in which a chunk is accepted. */
  ghost predicate CanServe(s: State) {
    exists ops, trace :: Serves(s, ops, trace)
  }

  ghost predicate Serves(s: State, ops: seq<Op>, trace: seq<State>) {
    && IsRun(ops, trace) && trace[0] == s
    && exists leaseId, chunkId, discard :: Accept(trace[|ops|], leaseId, chunkId, discard).1
  }

  /** The same leases, revoked where they were, and none of the first n running. */
  ghost predicate FinishedUpTo(s: State, after: State, n: nat) {
    && n <= |s.entries| == |after.entries|
    && (forall i :: 0 <= i < |s.entries| ==> (after.entries[i].state == Revoked <==> s.entries[i].state == Revoked))
    && (forall i :: 0 <= i < n ==> after.entries[i].state != Running)
  }

  lemma CompleteNext(s: State, before: State, n: nat, after: State)
    requires FinishedUpTo(s, before, n) && n < |s.entries| && before.entries[n].state == Running
    requires after == Step(before, CompleteOp(before.entries[n].leaseId, ""))
    ensures FinishedUpTo(s, after, n + 1)
  {
    assert RunningFor(before.entries[n], before.entries[n].leaseId);
    assert RunningFrom(before.entries, before.entries[n].leaseId, 0) == n;
  }

  /** The run that completes every running entry. */
  lemma {:induction false} FinishRun(s: State, n: nat) returns (ops: seq<Op>, trace: seq<State>)
    requires n <= |s.entries|
    ensures IsRun(ops, trace) && trace[0] == s && FinishedUpTo(s, trace[|ops|], n)
    decreases n
  {
    if n == 0 {
      ops, trace := [], [s];
    } else {
      ops, trace := FinishRun(s, n - 1);
      var before := trace[|ops|];
      if before.entries[n - 1].state == Running {
        var op := CompleteOp(before.entries[n - 1].leaseId, "");
        var after := Step(before, op);
        CompleteNext(s, before, n - 1, after);
        RunSnoc(ops, trace, op, after);
        ops, trace := ops + [op], trace + [after];
      }
    }
  }

  /** Reconciling against nothing keeps exactly the revoked entries, once nothing runs. */
  lemma {:induction false} OnlyRevokedKept(entries: seq<Entry>, n: nat)
    requires n <= |entries| && forall i :: 0 <= i < n ==> entries[i].state != Running
    ensures |KeptFrom(entries, [], n)| == RevokedIn(entries, n)
    decreases n
  {
    if n > 0 {
      OnlyRevokedKept(entries, n - 1);
    }
  }

  lemma FreedAccepts(s: State, finished: State, reconciled: State, ready: State)
    requires !Exhausted(s) && FinishedUpTo(s, finished, |s.entries|)
    requires reconciled == Step(finished, ReconcileOp([])) && ready == Step(reconciled, DrainOp(false))
    ensures Accept(ready, 0, 0, false).1
  {
    RevokedPointwise(finished.entries, s.entries, |s.entries|);
    OnlyRevokedKept(finished.entries, |finished.entries|);
  }

  /** A worker that is not exhausted can be brought back: complete what runs, reconcile against nothing
      and stop draining. */
  lemma FreedServes(s: State)
    requires !Exhausted(s)
    ensures CanServe(s)
  {
    var ops, trace := FinishRun(s, |s.entries|);
    var finished := trace[|ops|];
    var reconciled := Step(finished, ReconcileOp([]));
    var ready := Step(reconciled, DrainOp(false));
    RunSnoc(ops, trace, ReconcileOp([]), reconciled);
    ops, trace := ops + [ReconcileOp([])], trace + [reconciled];
    RunSnoc(ops, trace, DrainOp(false), ready);
    ops, trace := ops + [DrainOp(false)], trace + [ready];
    FreedAccepts(s, finished, reconciled, ready);
    assert trace[|ops|] == ready && Accept(trace[|ops|], 0, 0, false).1;
    assert Serves(s, ops, trace);
  }

  /** From a state some continuation lets the worker accept a chunk again if and only if its table is not
      used up by revoked entries. */
  lemma CanServeIffNotExhausted(s: State)
    ensures CanServe(s) <==> !Exhausted(s)
  {
    if Exhausted(s) {
      forall ops, trace ensures !Serves(s, ops, trace) {
        if Serves(s, ops, trace) {
          var leaseId, chunkId, discard :| Accept(trace[|ops|], leaseId, chunkId, discard).1;
          ExhaustionIsFinal(ops, trace, |ops|, leaseId, chunkId, discard);
        }
      }
    } else {
      FreedServes(s);
    }
  }
}
