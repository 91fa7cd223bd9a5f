/** The worker's lease table and its calls, in place (worker/src/recovery.c). */
module WorkerRecovery {
  import opened MachineInts
  import opened Options
  import opened WorkerRecoveryModel

  lemma SplitFirst(was: seq<Entry>, seen: nat, first: Entry, rest: seq<Entry>)
    requires seen < |was| && [first] + rest == was[seen..]
    ensures first == was[seen] && rest == was[seen + 1..]
  {
    assert ([first] + rest)[0] == was[seen..][0];
    assert ([first] + rest)[1..] == was[seen..][1..];
  }

  lemma MovedDown(front: seq<Entry>, rest: seq<Entry>, front': seq<Entry>, rest': seq<Entry>)
    requires |front'| == |front| && forall m :: 0 <= m < |front| ==> front'[m] == front[m]
    requires |rest'| == |rest| && forall m :: 0 <= m < |rest| ==> rest'[m] == rest[m]
    ensures front' == front && rest' == rest
  {
  }

  class Context {
    const leases: array<Entry>
    var count: nat
    var draining: bool
    var connected: bool

    ghost predicate InRange()
      reads this
    {
      leases.Length == MAX_LEASES && count <= MAX_LEASES
    }

    ghost function Model(): State
      requires InRange()
      reads this, leases
    {
      State(leases[..count], draining, connected)
    }

    constructor ()
      ensures InRange() && Model() == START && fresh(leases)
    {
      leases := new Entry[MAX_LEASES](_ => Entry(0, 0, Running, "", false, false));
      count, draining, connected := 0, false, true;
    }

    method SetDrain(drain: bool)
      requires InRange()
      modifies this`draining
      ensures Model() == Step(old(Model()), DrainOp(drain))
    {
      draining := drain;
    }

    method OnDisconnect()
      requires InRange()
      modifies this`connected
      ensures Model() == Step(old(Model()), DisconnectOp)
    {
      connected := false;
    }

    method AcceptNewChunk(leaseId: u64, chunkId: u64, discard: bool) returns (ok: bool)
      requires InRange()
      modifies this`count, leases
      ensures InRange() && (Model(), ok) == Accept(old(Model()), leaseId, chunkId, discard)
    {
      if draining || count >= MAX_LEASES {
        return false;
      }
      leases[count] := Entry(leaseId, chunkId, Running, "", false, discard);
      count := count + 1;
      assert leases[..count] == old(leases[..count]) + [Entry(leaseId, chunkId, Running, "", false, discard)];
      return true;
    }

    method HandleRevocation(leaseId: u64)
      requires InRange()
      modifies leases
      ensures Model() == Revoke(old(Model()), leaseId)
    {
      for i := 0 to count
        invariant Model() == old(Model())
        invariant forall m :: 0 <= m < i ==> leases[m].leaseId != leaseId
      {
        if leases[i].leaseId == leaseId {
          assert EntryFrom(Model().entries, leaseId, 0) == i;
          leases[i] := RevokeEntry(leases[i]);
          return;
        }
      }
    }

    method CompleteChunk(leaseId: u64, checksum: string)
      requires InRange()
      modifies leases
      ensures Model() == Complete(old(Model()), leaseId, checksum)
    {
      for i := 0 to count
        invariant Model() == old(Model())
        invariant forall m :: 0 <= m < i ==> !RunningFor(leases[m], leaseId)
      {
        if leases[i].leaseId == leaseId && leases[i].state == Running {
          assert RunningFrom(Model().entries, leaseId, 0) == i;
          leases[i] := leases[i].(state := Completed, checksum := Stored(checksum));
          return;
        }
      }
    }

    method ClaimResult(leaseId: u64) returns (result: Option<string>)
      requires InRange()
      ensures result == Claim(Model(), leaseId)
    {
      for i := 0 to count
        invariant forall m :: 0 <= m < i ==> leases[m].leaseId != leaseId
      {
        if leases[i].leaseId == leaseId {
          assert EntryFrom(Model().entries, leaseId, 0) == i;
          if leases[i].state != Reconciled && leases[i].state != Completed {
            return None;
          }
          return Some(leases[i].checksum);
        }
      }
      return None;
    }

    method IsAuthoritative(leaseId: u64, auth: seq<u64>) returns (matched: bool)
      ensures matched <==> leaseId in auth
    {
      for j := 0 to |auth|
        invariant leaseId !in auth[..j]
      {
        if auth[j] == leaseId {
          return true;
        }
        assert auth[..j + 1] == auth[..j] + [auth[j]];
      }
      assert auth[..|auth|] == auth;
      return false;
    }

    /** The entries behind i move down over it. */
    method DropEntry(i: nat)
      requires InRange() && i < count
      modifies this`count, leases
      ensures InRange() && count == old(count) - 1
      ensures leases[..i] == old(leases[..i])
      ensures leases[i..count] == old(leases[i + 1..count])
    {
      for k := i to count - 1
        invariant count == old(count)
        invariant forall m :: 0 <= m < i ==> leases[m] == old(leases[m])
        invariant forall m :: i <= m < k ==> leases[m] == old(leases[m + 1])
        invariant forall m :: k <= m < count ==> leases[m] == old(leases[m])
      {
        leases[k] := leases[k + 1];
      }
      count := count - 1;
      MovedDown(old(leases[..i]), old(leases[i + 1..count]), leases[..i], leases[i..count]);
    }

    /** Update entry i against the authoritative list; says whether it is to be kept. */
    method ReconcileAt(i: nat, auth: seq<u64>) returns (kept: bool)
      requires InRange() && i < count
      modifies leases
      ensures kept <==> ReconcileEntry(old(leases[i]), auth).Some?
      ensures kept ==> leases[i] == ReconcileEntry(old(leases[i]), auth).value
      ensures forall m :: 0 <= m < leases.Length && m != i ==> leases[m] == old(leases[m])
    {
      var matched := IsAuthoritative(leases[i].leaseId, auth);
      if !matched {
        if leases[i].state == Running {
          leases[i] := RevokeEntry(leases[i]);
        }
        if leases[i].state != Revoked {
          return false;
        }
      } else if leases[i].state == Completed {
        leases[i] := leases[i].(state := Reconciled);
      }
      return true;
    }

    /** The loop has dealt with the first `seen` entries of the original list. */
    ghost predicate Progress(was: seq<Entry>, auth: seq<u64>, seen: nat, i: nat)
      reads this, leases
    {
      && InRange() && i <= count && seen <= |was| && count - i == |was| - seen
      && leases[..i] == KeptFrom(was, auth, seen)
      && leases[i..count] == was[seen..]
    }

    /** The loop that updates, keeps or removes entries in place; what it leaves is the order-preserving
        map and filter of the original list. */
    method ReconnectReconcile(auth: seq<u64>)
      requires InRange()
      modifies this`connected, this`count, leases
      ensures InRange() && Model() == Reconcile(old(Model()), auth)
    {
      connected := true;
      ghost var was := old(leases[..count]);
      ghost var seen := 0;
      var i := 0;
      while i < count
        invariant connected && draining == old(draining)
        invariant Progress(was, auth, seen, i)
        decreases |was| - seen
      {
        var advanced := ReconcileNext(auth, i, was, seen);
        if advanced {
          i := i + 1;
        }
        seen := seen + 1;
      }
      assert seen == |was| && leases[..count] == leases[..i] == KeptFrom(was, auth, |was|);
    }

    /** One round of the loop: entry i is updated and kept, or removed by moving the rest down. */
    method ReconcileNext(auth: seq<u64>, i: nat, ghost was: seq<Entry>, ghost seen: nat) returns (advanced: bool)
      requires Progress(was, auth, seen, i) && i < count
      modifies this`count, leases
      ensures Progress(was, auth, seen + 1, if advanced then i + 1 else i)
    {
      ghost var front, back, rest := leases[..i], leases[i..count], leases[i + 1..count];
      assert back == [leases[i]] + rest;
      SplitFirst(was, seen, leases[i], rest);
      advanced := ReconcileAt(i, auth);
      assert leases[..i] == front;
      assert leases[i + 1..count] == rest;
      if advanced {
        assert leases[..i + 1] == front + [leases[i]];
      } else {
        DropEntry(i);
      }
    }
  }
}
