/** What the calls of the worker's lease recovery do to one lease, and to the two flags, in plain terms
    (worker/src/recovery.c). */
module WorkerRecoveryLaws {
  import opened MachineInts
  import opened Options
  import opened WorkerRecoveryModel

  // ----- Reconciliation, lease by lease -----

  /** A running chunk goes on exactly when the master still lists its lease; otherwise it is revoked, and
      its partial output is kept unless the policy says to discard it. */
  lemma RunningReconciled(s: State, auth: seq<u64>, id: u64, e: Entry)
    requires Finds(s.entries, id, e) && e.state == Running
    ensures id in auth ==> Finds(Reconcile(s, auth).entries, id, e)
    ensures id !in auth ==>
              Finds(Reconcile(s, auth).entries, id, e.(state := Revoked, partialPreserved := !e.discardOnCancel))
  {
    var k := EntryFrom(s.entries, id, 0);
    var after := if id in auth then e else e.(state := Revoked, partialPreserved := !e.discardOnCancel);
    FirstSurvives(s.entries, auth, |s.entries|, id, k, after);
  }

  /** A finished chunk whose lease is listed becomes reconciled with the same checksum; a revoked one is
      left as it is, listed or not. */
  lemma EndedReconciled(s: State, auth: seq<u64>, id: u64, e: Entry)
    requires Finds(s.entries, id, e) && e.state != Running
    ensures e.state == Revoked ==> Finds(Reconcile(s, auth).entries, id, e)
    ensures e.state != Revoked && id in auth ==> Finds(Reconcile(s, auth).entries, id, e.(state := Reconciled))
  {
    var k := EntryFrom(s.entries, id, 0);
    if e.state == Revoked {
      FirstSurvives(s.entries, auth, |s.entries|, id, k, e);
    } else if id in auth {
      FirstSurvives(s.entries, auth, |s.entries|, id, k, e.(state := Reconciled));
    }
  }

  /** The checksum as the 64-byte buffer holds it. */
  function Cut(text: string): string { if |text| < 64 then text else text[..63] }

  /** A disconnection costs a listed running chunk nothing: it can still be completed and claimed. */
  lemma WorkResumes(s: State, auth: seq<u64>, id: u64, e: Entry, text: string)
    requires Finds(s.entries, id, e) && e.state == Running && id in auth
    ensures Claim(Complete(Reconcile(s, auth), id, text), id) == Some(Cut(text))
    ensures |text| <= 63 ==> Claim(Complete(Reconcile(s, auth), id, text), id) == Some(text)
  {
    RunningReconciled(s, auth, id, e);
    CompleteThenClaim(Reconcile(s, auth), id, text);
  }

  // ----- The life of a lease -----

  /** A chunk is accepted exactly when the worker is not draining and one of the sixteen places is free;
      then a lease that is new to the worker is found running, with nothing to claim. */
  lemma Accepted(s: State, id: u64, chunkId: u64, discard: bool)
    requires EntryFrom(s.entries, id, 0) < 0
    ensures Accept(s, id, chunkId, discard).1 <==> !s.draining && |s.entries| < 16
    ensures var (after, ok) := Accept(s, id, chunkId, discard);
            && (ok ==> Finds(after.entries, id, Entry(id, chunkId, Running, "", false, discard)))
            && (!ok ==> after == s) && Claim(after, id) == None
  {
    SnocFinds(s.entries, [Entry(id, chunkId, Running, "", false, discard)], id);
  }

  /** From acceptance to the claim: the completed chunk's checksum, and nothing after a revocation. */
  lemma AcceptCompleteClaim(s: State, id: u64, chunkId: u64, discard: bool, text: string)
    requires EntryFrom(s.entries, id, 0) < 0 && Accept(s, id, chunkId, discard).1
    ensures Claim(Complete(Accept(s, id, chunkId, discard).0, id, text), id) == Some(Cut(text))
    ensures Claim(Complete(Revoke(Accept(s, id, chunkId, discard).0, id), id, text), id) == None
  {
    Accepted(s, id, chunkId, discard);
    var accepted := Accept(s, id, chunkId, discard).0;
    CompleteThenClaim(accepted, id, text);
    RevokedEntry(accepted, id, Entry(id, chunkId, Running, "", false, discard));
    var revoked := Revoke(accepted, id);
    RevokedNotCompleted(revoked, id, text);
  }

  lemma RevokedNotCompleted(s: State, id: u64, text: string)
    requires EntryFrom(s.entries, id, 0) >= 0 && s.entries[EntryFrom(s.entries, id, 0)].state == Revoked
    ensures Claim(Complete(s, id, text), id) == None
  {
    var e := s.entries[EntryFrom(s.entries, id, 0)];
    var e' := StepKeepsRevoked(s, CompleteOp(id, text), id, e, Complete(s, id, text));
  }

  /** Revoking a lease keeps its partial output exactly when it was accepted without the discard policy. */
  lemma RevokedEntry(s: State, id: u64, e: Entry)
    requires Finds(s.entries, id, e)
    ensures Finds(Revoke(s, id).entries, id, e.(state := Revoked, partialPreserved := !e.discardOnCancel))
  {
    var k := EntryFrom(s.entries, id, 0);
    UpdateFinds(s.entries, k, RevokeEntry(e), id);
  }

  /** Calls about other leases leave a lease alone. */
  lemma OtherLeaseUntouched(s: State, op: Op, id: u64, e: Entry)
    requires Finds(s.entries, id, e)
    requires match op
             case AcceptOp(l, _, _) => l != id
             case RevokeOp(l) => l != id
             case CompleteOp(l, _) => l != id
             case ReconcileOp(_) => false
             case _ => true
    ensures Finds(Step(s, op).entries, id, e)
  {
    match op
    case AcceptOp(l, c, d) => SnocFinds(s.entries, [Entry(l, c, Running, "", false, d)], id);
    case RevokeOp(l) =>
      var k := EntryFrom(s.entries, l, 0);
      if k >= 0 {
        UpdateFinds(s.entries, k, RevokeEntry(s.entries[k]), id);
      }
    case CompleteOp(l, text) =>
      var k := RunningFrom(s.entries, l, 0);
      if k >= 0 {
        UpdateFinds(s.entries, k, Step(s, op).entries[k], id);
      }
    case _ =>
  }

  // ----- The flags over runs -----

  /** The value of the last drain call among the first t, or false. */
  function LastDrain(ops: seq<Op>, t: nat): bool
    requires t <= |ops|
  {
    t > 0 && if ops[t - 1].DrainOp? then ops[t - 1].draining else LastDrain(ops, t - 1)
  }

  /** The first t calls end connected: the last disconnection, if any, was followed by a reconciliation. */
  function EndsConnected(ops: seq<Op>, t: nat): bool
    requires t <= |ops|
  {
    t == 0 || ops[t - 1].ReconcileOp? || (!ops[t - 1].DisconnectOp? && EndsConnected(ops, t - 1))
  }

  /** In every run from the start the flags say what the last calls about them said. */
  lemma {:induction false} FlagsFollowCalls(ops: seq<Op>, trace: seq<State>, t: nat)
    requires IsRun(ops, trace) && trace[0] == START && t < |trace|
    ensures trace[t].draining == LastDrain(ops, t) && trace[t].connected == EndsConnected(ops, t)
    decreases t
  {
    if t > 0 {
      FlagsFollowCalls(ops, trace, t - 1);
      assert RunStep(ops, trace, t - 1);
    }
  }
}
