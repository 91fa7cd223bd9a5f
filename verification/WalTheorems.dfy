/** The dashboard reads back what the master wrote: for every reachable cluster state and whatever
    stands in the padding, and prefixes of it from a file that was cut short. */
module WalTheorems {
  import opened MachineInts
  import opened ClusterModel
  import opened WalImage

  // ----- What the dashboard should show -----

  function HealthLabel(h: Health): string {
    match h
    case Online => "ONLINE"
    case Draining => "DRAINING"
    case Offline => "OFFLINE"
  }

  function StatusLabel(s: Status): string {
    match s
    case Bootstrap => "BOOTSTRAP"
    case Operational => "OPERATIONAL"
    case Degraded => "DEGRADED"
  }

  function LeaseLabel(s: LeaseStatus): string {
    match s
    case Running => "RUNNING"
    case Completed => "COMPLETED"
    case Failed => "FAILED"
    case TimedOut => "TIMED_OUT"
  }

  function ShownWorker(w: Worker): WorkerView {
    WorkerView(w.id, Known(HealthLabel(w.health)), w.lastSeenMs, w.totalMemory, w.reservedMemory, w.totalCores,
               w.reservedCores)
  }

  function ShownLease(l: Lease): LeaseView {
    LeaseView(l.chunkId, Known(LeaseLabel(l.status)), l.progressBits, l.retries)
  }

  function ShownMetrics(m: Metrics): MetricsView {
    MetricsView(m.aggMemory, m.allocMemory, m.aggCores, m.allocCores, m.activeWorkers)
  }

  /** The first n workers, in order, leaving out those with id zero. */
  function ShownWorkers(ws: seq<Worker>, n: nat): (r: seq<WorkerView>)
    requires n <= |ws|
    ensures |r| <= n
    ensures |r| == n <==> forall i :: 0 <= i < n ==> ws[i].id != 0
  {
    if n == 0 then [] else ShownWorkers(ws, n - 1) + if ws[n - 1].id != 0 then [ShownWorker(ws[n - 1])] else []
  }

  function ShownLeases(ls: seq<Lease>, n: nat): (r: seq<LeaseView>)
    requires n <= |ls|
    ensures |r| <= n
    ensures |r| == n <==> forall i :: 0 <= i < n ==> ls[i].chunkId != 0
  {
    if n == 0 then [] else ShownLeases(ls, n - 1) + if ls[n - 1].chunkId != 0 then [ShownLease(ls[n - 1])] else []
  }

  // ----- Walking through the image -----

  /** A field at the front of what is left of the data can be read, and the walk goes on behind it. */
  lemma Head(data: seq<u8>, off: nat, a: seq<u8>, rest: seq<u8>)
    requires off <= |data| && data[off..] == a + rest
    ensures off + |a| <= |data| && data[off..off + |a|] == a && data[off + |a|..] == rest
  {
    assert data[off..off + |a|] == data[off..][..|a|];
    assert data[off + |a|..] == data[off..][|a|..];
  }

  lemma Head32(data: seq<u8>, off: nat, n: u32, rest: seq<u8>)
    requires off <= |data| && data[off..] == U32(n) + rest
    ensures off + 4 <= |data| && UnpackI(data, off) == n && data[off + 4..] == rest
  {
    Head(data, off, U32(n), rest);
    U32RoundTrip(n);
  }

  lemma Head64(data: seq<u8>, off: nat, n: u64, rest: seq<u8>)
    requires off <= |data| && data[off..] == U64(n) + rest
    ensures off + 8 <= |data| && UnpackQ(data, off) == n && data[off + 8..] == rest
  {
    Head(data, off, U64(n), rest);
    U64RoundTrip(n);
  }

  lemma WorkerRecord(data: seq<u8>, i: nat, w: Worker, rest: seq<u8>)
    requires WORKERS_AT + WORKER_BYTES * i <= |data| && data[WORKERS_AT + WORKER_BYTES * i..] == WorkerThen(w, rest)
    ensures WORKERS_AT + WORKER_BYTES * (i + 1) <= |data| && data[WORKERS_AT + WORKER_BYTES * (i + 1)..] == rest
    ensures WorkerAt(data, i) == ShownWorker(w)
  {
    WorkerFields(data, WORKERS_AT + WORKER_BYTES * i, w, rest);
  }

  lemma WorkerFields(data: seq<u8>, off: nat, w: Worker, rest: seq<u8>)
    requires off <= |data| && data[off..] == WorkerThen(w, rest)
    ensures off + WORKER_BYTES <= |data| && data[off + WORKER_BYTES..] == rest
    ensures ReadWorker(data, off) == ShownWorker(w)
  {
    var r7 := U32(w.reservedCores) + rest;
    var r6 := U32(w.totalCores) + r7;
    var r5 := U64(w.reservedMemory) + r6;
    var r4 := U64(w.totalMemory) + r5;
    var r3 := U64(w.lastSeenMs) + r4;
    var r2 := U32(HealthCode(w.health)) + r3;
    Head32(data, off, w.id, r2);
    Head32(data, off + 4, HealthCode(w.health), r3);
    Head64(data, off + 8, w.lastSeenMs, r4);
    Head64(data, off + 16, w.totalMemory, r5);
    Head64(data, off + 24, w.reservedMemory, r6);
    Head32(data, off + 32, w.totalCores, r7);
    Head32(data, off + 36, w.reservedCores, rest);
  }

  lemma LeaseRecord(data: seq<u8>, i: nat, l: Lease, pad: Pad, rest: seq<u8>)
    requires LEASES_AT + LEASE_BYTES * i <= |data| && data[LEASES_AT + LEASE_BYTES * i..] == LeaseThen(l, pad, rest)
    ensures LEASES_AT + LEASE_BYTES * (i + 1) <= |data| && data[LEASES_AT + LEASE_BYTES * (i + 1)..] == rest
    ensures LeaseAt(data, i) == ShownLease(l)
  {
    var off := LEASES_AT + LEASE_BYTES * i;
    var r5 := pad + rest;
    var r4 := U32(l.retries) + r5;
    var r3 := U32(l.progressBits) + r4;
    var r2 := U32(LeaseCode(l.status)) + r3;
    Head64(data, off, l.chunkId, r2);
    Head32(data, off + 8, LeaseCode(l.status), r3);
    Head32(data, off + 12, l.progressBits, r4);
    Head32(data, off + 16, l.retries, r5);
    Head(data, off + 20, pad, rest);
  }

  lemma Assoc(a: seq<u8>, b: seq<u8>, c: seq<u8>)
    ensures (a + b) + c == a + (b + c)
  {
  }

  /** A record written on its own and then continued is the record with its continuation. */
  lemma WorkerContinued(w: Worker, rest: seq<u8>)
    ensures WorkerThen(w, []) + rest == WorkerThen(w, rest) && |WorkerThen(w, [])| == 40
  {
    var r7 := U32(w.reservedCores) + [];
    var r6 := U32(w.totalCores) + r7;
    var r5 := U64(w.reservedMemory) + r6;
    var r4 := U64(w.totalMemory) + r5;
    var r3 := U64(w.lastSeenMs) + r4;
    var r2 := U32(HealthCode(w.health)) + r3;
    Assoc(U32(w.id), r2, rest);
    Assoc(U32(HealthCode(w.health)), r3, rest);
    Assoc(U64(w.lastSeenMs), r4, rest);
    Assoc(U64(w.totalMemory), r5, rest);
    Assoc(U64(w.reservedMemory), r6, rest);
    Assoc(U32(w.totalCores), r7, rest);
    Assoc(U32(w.reservedCores), [], rest);
    assert [] + rest == rest;
  }

  lemma LeaseContinued(l: Lease, pad: Pad, rest: seq<u8>)
    ensures LeaseThen(l, pad, []) + rest == LeaseThen(l, pad, rest) && |LeaseThen(l, pad, [])| == 24
  {
    var r5 := pad + [];
    var r4 := U32(l.retries) + r5;
    var r3 := U32(l.progressBits) + r4;
    var r2 := U32(LeaseCode(l.status)) + r3;
    Assoc(U64(l.chunkId), r2, rest);
    Assoc(U32(LeaseCode(l.status)), r3, rest);
    Assoc(U32(l.progressBits), r4, rest);
    Assoc(U32(l.retries), r5, rest);
    Assoc(pad, [], rest);
    assert [] + rest == rest;
  }

  /** A table of 40-byte records can be walked record by record. */
  lemma {:induction false} Walk40(data: seq<u8>, records: seq<seq<u8>>, rest: seq<u8>, k: nat)
    requires |data| >= WORKERS_AT && data[WORKERS_AT..] == Concat(records, 0, rest) && k <= |records|
    requires forall i :: 0 <= i < |records| ==> |records[i]| == 40
    ensures WORKERS_AT + WORKER_BYTES * k <= |data| && data[WORKERS_AT + WORKER_BYTES * k..] == Concat(records, k, rest)
    decreases k
  {
    if k > 0 {
      Walk40(data, records, rest, k - 1);
      Head(data, WORKERS_AT + WORKER_BYTES * (k - 1), records[k - 1], Concat(records, k, rest));
    }
  }

  lemma {:induction false} Walk24(data: seq<u8>, records: seq<seq<u8>>, rest: seq<u8>, k: nat)
    requires |data| >= LEASES_AT && data[LEASES_AT..] == Concat(records, 0, rest) && k <= |records|
    requires forall i :: 0 <= i < |records| ==> |records[i]| == 24
    ensures LEASES_AT + LEASE_BYTES * k <= |data| && data[LEASES_AT + LEASE_BYTES * k..] == Concat(records, k, rest)
    decreases k
  {
    if k > 0 {
      Walk24(data, records, rest, k - 1);
      Head(data, LEASES_AT + LEASE_BYTES * (k - 1), records[k - 1], Concat(records, k, rest));
    }
  }

  lemma WorkerTable(data: seq<u8>, ws: seq<Worker>, rest: seq<u8>)
    requires |data| >= WORKERS_AT && data[WORKERS_AT..] == Concat(WorkerRecords(ws), 0, rest)
    ensures WORKERS_AT + WORKER_BYTES * |ws| <= |data| && data[WORKERS_AT + WORKER_BYTES * |ws|..] == rest
    ensures forall k :: 0 <= k < |ws| ==> WorkerAt(data, k) == ShownWorker(ws[k])
  {
    var records := WorkerRecords(ws);
    forall i | 0 <= i < |records| ensures |records[i]| == 40 {
      WorkerContinued(ws[i], []);
    }
    Walk40(data, records, rest, |ws|);
    forall k | 0 <= k < |ws| ensures WorkerAt(data, k) == ShownWorker(ws[k]) {
      Walk40(data, records, rest, k);
      WorkerContinued(ws[k], Concat(records, k + 1, rest));
      WorkerRecord(data, k, ws[k], Concat(records, k + 1, rest));
    }
  }

  lemma LeaseTable(data: seq<u8>, ls: seq<Lease>, pads: Padding, rest: seq<u8>)
    requires |data| >= LEASES_AT && data[LEASES_AT..] == Concat(LeaseRecords(ls, pads), 0, rest)
    ensures LEASES_AT + LEASE_BYTES * |ls| <= |data| && data[LEASES_AT + LEASE_BYTES * |ls|..] == rest
    ensures forall k :: 0 <= k < |ls| ==> LeaseAt(data, k) == ShownLease(ls[k])
  {
    var records := LeaseRecords(ls, pads);
    forall i | 0 <= i < |records| ensures |records[i]| == 24 {
      LeaseContinued(ls[i], pads.lease(i), []);
    }
    Walk24(data, records, rest, |ls|);
    forall k | 0 <= k < |ls| ensures LeaseAt(data, k) == ShownLease(ls[k]) {
      Walk24(data, records, rest, k);
      LeaseContinued(ls[k], pads.lease(k), Concat(records, k + 1, rest));
      LeaseRecord(data, k, ls[k], pads.lease(k), Concat(records, k + 1, rest));
    }
  }

  lemma HeaderRead(m: Snapshot, pads: Padding, data: seq<u8>)
    requires Shaped(m) && data == Image(m, pads)
    ensures |data| >= WORKERS_AT && data[WORKERS_AT..] == Concat(WorkerRecords(m.workers), 0, MiddleImage(m, pads))
    ensures data[..UUID_BYTES] == m.uuid && UnpackQ(data, 64) == m.epoch && UnpackQ(data, 72) == m.generation
    ensures UnpackI(data, 80) == StatusCode(m.status)
  {
    var r5 := Concat(WorkerRecords(m.workers), 0, MiddleImage(m, pads));
    var r4 := pads.header + r5;
    var r3 := U32(StatusCode(m.status)) + r4;
    var r2 := U64(m.generation) + r3;
    var r1 := U64(m.epoch) + r2;
    assert data[0..] == m.uuid + r1;
    Head(data, 0, m.uuid, r1);
    Head64(data, 64, m.epoch, r2);
    Head64(data, 72, m.generation, r3);
    Head32(data, 80, StatusCode(m.status), r4);
    Head(data, 84, pads.header, r5);
  }

  lemma MiddleRead(m: Snapshot, pads: Padding, data: seq<u8>)
    requires Shaped(m) && |data| >= TOTAL_WORKERS_AT && data[TOTAL_WORKERS_AT..] == MiddleImage(m, pads)
    ensures |data| >= LEASES_AT && UnpackI(data, TOTAL_WORKERS_AT) == m.totalWorkers
    ensures data[LEASES_AT..] == Concat(LeaseRecords(m.leases, pads), 0, TailImage(m, pads))
  {
    var r2 := Concat(LeaseRecords(m.leases, pads), 0, TailImage(m, pads));
    Head32(data, TOTAL_WORKERS_AT, m.totalWorkers, pads.workers + r2);
    Head(data, TOTAL_WORKERS_AT + 4, pads.workers, r2);
  }

  lemma TailRead(m: Snapshot, pads: Padding, data: seq<u8>)
    requires Shaped(m) && |data| >= TOTAL_LEASES_AT && data[TOTAL_LEASES_AT..] == TailImage(m, pads)
    ensures |data| == IMAGE_BYTES && UnpackI(data, TOTAL_LEASES_AT) == m.totalLeases
    ensures MetricsAt(data) == ShownMetrics(m.metrics)
  {
    var pad := pads.metrics;
    var r5 := U32(m.metrics.activeWorkers) + pad;
    var r4 := U32(m.metrics.allocCores) + r5;
    var r3 := U32(m.metrics.aggCores) + r4;
    var r2 := U64(m.metrics.allocMemory) + r3;
    var r1 := U64(m.metrics.aggMemory) + r2;
    Head32(data, TOTAL_LEASES_AT, m.totalLeases, pads.leases + r1);
    Head(data, TOTAL_LEASES_AT + 4, pads.leases, r1);
    Head64(data, METRICS_AT, m.metrics.aggMemory, r2);
    Head64(data, METRICS_AT + 8, m.metrics.allocMemory, r3);
    Head32(data, METRICS_AT + 16, m.metrics.aggCores, r4);
    Head32(data, METRICS_AT + 20, m.metrics.allocCores, r5);
    Head32(data, METRICS_AT + 24, m.metrics.activeWorkers, pad);
  }

  /** Everything the reader looks at, at its offset. */
  ghost predicate Holds(data: seq<u8>, m: Snapshot)
    requires Shaped(m)
  {
    && |data| == IMAGE_BYTES
    && data[..UUID_BYTES] == m.uuid && UnpackQ(data, 64) == m.epoch && UnpackQ(data, 72) == m.generation
    && UnpackI(data, 80) == StatusCode(m.status)
    && UnpackI(data, TOTAL_WORKERS_AT) == m.totalWorkers && UnpackI(data, TOTAL_LEASES_AT) == m.totalLeases
    && (forall k :: 0 <= k < MAX_WORKERS ==> WorkerAt(data, k) == ShownWorker(m.workers[k]))
    && (forall k :: 0 <= k < MAX_LEASES ==> LeaseAt(data, k) == ShownLease(m.leases[k]))
    && MetricsAt(data) == ShownMetrics(m.metrics)
  }

  lemma ImageContents(m: Snapshot, pads: Padding, data: seq<u8>)
    requires Shaped(m) && data == Image(m, pads)
    ensures Holds(data, m)
  {
    HeaderRead(m, pads, data);
    WorkerTable(data, m.workers, MiddleImage(m, pads));
    MiddleRead(m, pads, data);
    LeaseTable(data, m.leases, pads, TailImage(m, pads));
    TailRead(m, pads, data);
  }

  // ----- The tables as lists -----

  lemma {:induction false} WorkersReadBack(data: seq<u8>, ws: seq<Worker>, n: nat)
    requires n <= |ws| && (n > 0 ==> WORKERS_AT + WORKER_BYTES * n <= |data|)
    requires forall k :: 0 <= k < n ==> WorkerAt(data, k) == ShownWorker(ws[k])
    ensures WorkersRead(data, n) == ShownWorkers(ws, n)
    decreases n
  {
    if n > 0 {
      WorkersReadBack(data, ws, n - 1);
      assert WorkerAt(data, n - 1) == ShownWorker(ws[n - 1]);
    }
  }

  lemma {:induction false} LeasesReadBack(data: seq<u8>, ls: seq<Lease>, n: nat)
    requires n <= |ls| && (n > 0 ==> LEASES_AT + LEASE_BYTES * n <= |data|)
    requires forall k :: 0 <= k < n ==> LeaseAt(data, k) == ShownLease(ls[k])
    ensures LeasesRead(data, n) == ShownLeases(ls, n)
    decreases n
  {
    if n > 0 {
      LeasesReadBack(data, ls, n - 1);
      assert LeaseAt(data, n - 1) == ShownLease(ls[n - 1]);
    }
  }

  /** Zeroed entries show nothing. */
  lemma {:induction false} UnusedWorkersHidden(ws: seq<Worker>, used: nat, n: nat)
    requires used <= n <= |ws| && forall i :: used <= i < n ==> ws[i] == ZERO_WORKER
    ensures ShownWorkers(ws, n) == ShownWorkers(ws, used)
    decreases n
  {
    if used < n {
      UnusedWorkersHidden(ws, used, n - 1);
    }
  }

  lemma {:induction false} UnusedLeasesHidden(ls: seq<Lease>, used: nat, n: nat)
    requires used <= n <= |ls| && forall i :: used <= i < n ==> ls[i] == ZERO_LEASE
    ensures ShownLeases(ls, n) == ShownLeases(ls, used)
    decreases n
  {
    if used < n {
      UnusedLeasesHidden(ls, used, n - 1);
    }
  }

  /** What the dashboard shows of a cluster state. */
  function Shown(m: Snapshot): View
    requires Shaped(m)
  {
    View(UntilZero(m.uuid), m.epoch, m.generation, Known(StatusLabel(m.status)),
         ShownWorkers(m.workers, m.totalWorkers), m.totalWorkers,
         ShownLeases(m.leases, m.totalLeases), m.totalLeases, ShownMetrics(m.metrics))
  }

  lemma AllWorkersShown(m: Snapshot, data: seq<u8>)
    requires Sound(m) && Holds(data, m)
    ensures WorkersRead(data, WorkersInside(|data|, MAX_WORKERS)) == ShownWorkers(m.workers, m.totalWorkers)
  {
    assert WorkersInside(|data|, MAX_WORKERS) == MAX_WORKERS;
    WorkersReadBack(data, m.workers, MAX_WORKERS);
    UnusedWorkersHidden(m.workers, m.totalWorkers, MAX_WORKERS);
  }

  lemma AllLeasesShown(m: Snapshot, data: seq<u8>)
    requires Sound(m) && Holds(data, m)
    ensures LeasesRead(data, LeasesInside(|data|, MAX_LEASES)) == ShownLeases(m.leases, m.totalLeases)
  {
    assert LeasesInside(|data|, MAX_LEASES) == MAX_LEASES;
    LeasesReadBack(data, m.leases, MAX_LEASES);
    UnusedLeasesHidden(m.leases, m.totalLeases, MAX_LEASES);
  }

  lemma ContentsShown(m: Snapshot, data: seq<u8>)
    requires Sound(m) && Holds(data, m)
    ensures Parsed(data) == Shown(m)
  {
    AllWorkersShown(m, data);
    AllLeasesShown(m, data);
  }

  /** Parsing the written image of any sound state yields its workers and leases in order, its counts
      and its metrics, whatever the padding holds. */
  lemma ImageRoundTrip(m: Snapshot, pads: Padding)
    requires Sound(m)
    ensures Parsed(Image(m, pads)) == Shown(m)
  {
    ImageContents(m, pads, Image(m, pads));
    ContentsShown(m, Image(m, pads));
  }

  /** ... in every state that a run of calls can reach. */
  lemma ReachableRoundTrip(uuid: seq<u8>, epoch: u64, ops: seq<Op>, trace: seq<Context>, t: nat, pads: Padding)
    requires IsRun(uuid, epoch, ops, trace) && t < |trace|
    ensures Good(trace[t]) && Parsed(Image(trace[t].master, pads)) == Shown(trace[t].master)
  {
    RunsAreGood(uuid, epoch, ops, trace, t);
    ImageRoundTrip(trace[t].master, pads);
  }

  /** Every registered worker is shown, at its own place, if and only if none has id zero; the same
      goes for leases and chunk ids. */
  lemma AllShownIff(m: Snapshot, pads: Padding)
    requires Sound(m)
    ensures var v := Parsed(Image(m, pads));
            && (|v.workers| == m.totalWorkers <==> forall i :: 0 <= i < m.totalWorkers ==> m.workers[i].id != 0)
            && (|v.workers| == m.totalWorkers ==> forall i :: 0 <= i < m.totalWorkers ==>
                v.workers[i] == ShownWorker(m.workers[i]))
            && (|v.leases| == m.totalLeases <==> forall i :: 0 <= i < m.totalLeases ==> m.leases[i].chunkId != 0)
            && (|v.leases| == m.totalLeases ==> forall i :: 0 <= i < m.totalLeases ==>
                v.leases[i] == ShownLease(m.leases[i]))
  {
    ImageRoundTrip(m, pads);
    if |ShownWorkers(m.workers, m.totalWorkers)| == m.totalWorkers {
      WorkersInPlace(m.workers, m.totalWorkers);
    }
    if |ShownLeases(m.leases, m.totalLeases)| == m.totalLeases {
      LeasesInPlace(m.leases, m.totalLeases);
    }
  }

  lemma {:induction false} WorkersInPlace(ws: seq<Worker>, n: nat)
    requires n <= |ws| && |ShownWorkers(ws, n)| == n
    ensures forall i :: 0 <= i < n ==> ShownWorkers(ws, n)[i] == ShownWorker(ws[i])
    decreases n
  {
    if n > 0 {
      WorkersInPlace(ws, n - 1);
    }
  }

  lemma {:induction false} LeasesInPlace(ls: seq<Lease>, n: nat)
    requires n <= |ls| && |ShownLeases(ls, n)| == n
    ensures forall i :: 0 <= i < n ==> ShownLeases(ls, n)[i] == ShownLease(ls[i])
    decreases n
  {
    if n > 0 {
      LeasesInPlace(ls, n - 1);
    }
  }

  // ----- Files cut short -----

  lemma CutWorker(data: seq<u8>, size: nat, i: nat)
    requires WORKERS_AT + WORKER_BYTES * (i + 1) <= size <= |data|
    ensures WorkerAt(data[..size], i) == WorkerAt(data, i)
  {
    var cut, off := data[..size], WORKERS_AT + WORKER_BYTES * i;
    assert cut[off..off + 4] == data[off..off + 4];
    assert cut[off + 4..off + 8] == data[off + 4..off + 8];
    assert cut[off + 8..off + 16] == data[off + 8..off + 16];
    assert cut[off + 16..off + 24] == data[off + 16..off + 24];
    assert cut[off + 24..off + 32] == data[off + 24..off + 32];
    assert cut[off + 32..off + 36] == data[off + 32..off + 36];
    assert cut[off + 36..off + 40] == data[off + 36..off + 40];
  }

  /** Cutting a slice out of a longer prefix does not change it. */
  lemma CutSlice(data: seq<u8>, size: nat, lo: nat, hi: nat)
    requires lo <= hi <= size <= |data|
    ensures data[..size][lo..hi] == data[lo..hi]
  {
  }

  lemma CutWorkers(m: Snapshot, data: seq<u8>, size: nat, n: nat)
    requires Shaped(m) && Holds(data, m) && size <= |data|
    requires n <= MAX_WORKERS && (n > 0 ==> WORKERS_AT + WORKER_BYTES * n <= size)
    ensures WorkersRead(data[..size], n) == ShownWorkers(m.workers, n)
  {
    forall k | 0 <= k < n ensures WorkerAt(data[..size], k) == ShownWorker(m.workers[k]) {
      CutWorker(data, size, k);
    }
    WorkersReadBack(data[..size], m.workers, n);
  }

  lemma CutLease(data: seq<u8>, size: nat, i: nat)
    requires LEASES_AT + LEASE_BYTES * (i + 1) <= size <= |data|
    ensures LeaseAt(data[..size], i) == LeaseAt(data, i)
  {
    var off := LEASES_AT + LEASE_BYTES * i;
    CutSlice(data, size, off, off + 8);
    CutSlice(data, size, off + 8, off + 12);
    CutSlice(data, size, off + 12, off + 16);
    CutSlice(data, size, off + 16, off + 20);
  }

  lemma CutLeases(m: Snapshot, data: seq<u8>, size: nat, n: nat)
    requires Shaped(m) && Holds(data, m) && size <= |data|
    requires n <= MAX_LEASES && (n > 0 ==> LEASES_AT + LEASE_BYTES * n <= size)
    ensures LeasesRead(data[..size], n) == ShownLeases(m.leases, n)
  {
    forall k | 0 <= k < n ensures LeaseAt(data[..size], k) == ShownLease(m.leases[k]) {
      CutLease(data, size, k);
    }
    LeasesReadBack(data[..size], m.leases, n);
  }

  lemma CutHeader(m: Snapshot, data: seq<u8>, size: nat)
    requires Shaped(m) && Holds(data, m) && HEADER_BYTES <= size <= |data|
    ensures data[..size][..UUID_BYTES] == m.uuid
    ensures StatusName(UnpackSigned(data[..size], 80)) == Known(StatusLabel(m.status))
    ensures UnpackQ(data[..size], 64) == m.epoch && UnpackQ(data[..size], 72) == m.generation
  {
    CutSlice(data, size, 0, UUID_BYTES);
    CutSlice(data, size, 64, 72);
    CutSlice(data, size, 72, 80);
    CutSlice(data, size, 80, 84);
  }

  /** A count that can be read at all is the one written. */
  lemma CutTotals(m: Snapshot, data: seq<u8>, size: nat)
    requires Shaped(m) && Holds(data, m) && size <= |data|
    ensures TotalAt(data[..size], TOTAL_WORKERS_AT) == if TOTAL_WORKERS_AT + 8 <= size then m.totalWorkers else 0
    ensures TotalAt(data[..size], TOTAL_LEASES_AT) == if TOTAL_LEASES_AT + 8 <= size then m.totalLeases else 0
  {
    if TOTAL_WORKERS_AT + 8 <= size {
      CutSlice(data, size, TOTAL_WORKERS_AT, TOTAL_WORKERS_AT + 4);
    }
    if TOTAL_LEASES_AT + 8 <= size {
      CutSlice(data, size, TOTAL_LEASES_AT, TOTAL_LEASES_AT + 4);
    }
  }

  lemma CutMetrics(m: Snapshot, data: seq<u8>, size: nat)
    requires Shaped(m) && Holds(data, m) && size <= |data|
    ensures MetricsAt(data[..size]) == if size == IMAGE_BYTES then ShownMetrics(m.metrics) else NO_METRICS
  {
    if size == IMAGE_BYTES {
      assert data[..size] == data;
    }
  }

  /** Limiting a list by its count, where the count can be read at all, takes nothing away. */
  lemma LimitTakesNothing(m: Snapshot, size: nat)
    requires Sound(m)
    ensures var shown := ShownWorkers(m.workers, WorkersInside(size, MAX_WORKERS));
            Limited(shown, if TOTAL_WORKERS_AT + 8 <= size then m.totalWorkers else 0) == shown
    ensures var shown := ShownLeases(m.leases, LeasesInside(size, MAX_LEASES));
            Limited(shown, if TOTAL_LEASES_AT + 8 <= size then m.totalLeases else 0) == shown
  {
    if TOTAL_WORKERS_AT + 8 <= size {
      UnusedWorkersHidden(m.workers, m.totalWorkers, MAX_WORKERS);
    }
    if TOTAL_LEASES_AT + 8 <= size {
      UnusedLeasesHidden(m.leases, m.totalLeases, MAX_LEASES);
    }
  }

  /** What the dashboard shows of a file cut to the given size. */
  function CutView(m: Snapshot, size: nat): View
    requires Shaped(m)
  {
    if size < HEADER_BYTES then EMPTY_VIEW else
      View(UntilZero(m.uuid), m.epoch, m.generation, Known(StatusLabel(m.status)),
           ShownWorkers(m.workers, WorkersInside(size, MAX_WORKERS)),
           if TOTAL_WORKERS_AT + 8 <= size then m.totalWorkers else 0,
           ShownLeases(m.leases, LeasesInside(size, MAX_LEASES)),
           if TOTAL_LEASES_AT + 8 <= size then m.totalLeases else 0,
           if size == IMAGE_BYTES then ShownMetrics(m.metrics) else NO_METRICS)
  }

  lemma CutContents(m: Snapshot, data: seq<u8>, size: nat)
    requires Sound(m) && Holds(data, m) && size <= |data|
    ensures Parsed(data[..size]) == CutView(m, size)
  {
    if HEADER_BYTES <= size {
      CutHeader(m, data, size);
      CutTotals(m, data, size);
      CutWorkers(m, data, size, WorkersInside(size, MAX_WORKERS));
      CutLeases(m, data, size, LeasesInside(size, MAX_LEASES));
      CutMetrics(m, data, size);
      LimitTakesNothing(m, size);
    }
  }

  /** However short the file is cut, everything read from it is determined: nothing at all within the
      header; otherwise name, epoch, generation and status as written, and exactly the workers and
      leases of the complete table entries. A torn write never shows what is not there. */
  lemma CutShowsPrefix(m: Snapshot, pads: Padding, size: nat)
    requires Sound(m) && size <= IMAGE_BYTES
    ensures |Image(m, pads)| == IMAGE_BYTES && Parsed(Image(m, pads)[..size]) == CutView(m, size)
  {
    ImageContents(m, pads, Image(m, pads));
    CutContents(m, Image(m, pads), size);
  }

  // ----- Files of any content -----

  /** A signed word lies in the signed range and differs from the unsigned one by a multiple of 2^32. */
  lemma SignedWord(data: seq<u8>, off: nat)
    requires off + 4 <= |data|
    ensures var n, u := UnpackSigned(data, off), UnpackI(data, off);
            -0x8000_0000 <= n < 0x8000_0000 && (n == u || n == u - 0x1_0000_0000)
  {
    WordBound(data[off..off + 4]);
    assert Limit(4) == 256 * Limit(3) && Limit(3) == 256 * Limit(2) && Limit(2) == 256 * Limit(1);
  }

  lemma {:induction false} WordBound(b: seq<u8>)
    ensures Word(b) < Limit(|b|)
  {
    if b != [] {
      WordBound(b[1..]);
    }
  }

  /** Fewer than 84 bytes show an empty cluster; with more, whatever they are, a positive count limits its
      list to the first so many entries, and any other count leaves it whole. */
  lemma AnyFile(data: seq<u8>)
    ensures |data| < 84 ==>
              Parsed(data) == View(['-' as int], 0, 0, Known("BOOTSTRAP"), [], 0, [], 0, MetricsView(0, 0, 0, 0, 0))
    ensures |data| >= 84 ==>
              var v, all := Parsed(data), WorkersRead(data, WorkersInside(|data|, 32));
              && v.uuid == UntilZero(data[..64])
              && (v.totalWorkers > 0 ==> v.workers <= all && |v.workers| <= v.totalWorkers)
              && (v.totalWorkers <= 0 || |all| <= v.totalWorkers ==> v.workers == all)
    ensures |data| >= 84 ==>
              var v, all := Parsed(data), LeasesRead(data, LeasesInside(|data|, 128));
              && (v.totalLeases > 0 ==> v.leases <= all && |v.leases| <= v.totalLeases)
              && (v.totalLeases <= 0 || |all| <= v.totalLeases ==> v.leases == all)
  {
  }

  // ----- Where everything is -----

  /** Words are written with the least significant byte first. */
  lemma LittleEndian(n: u32)
    ensures U32(n)[0] == n % 0x100 && U32(n)[1] == n / 0x100 % 0x100
    ensures U32(n)[2] == n / 0x1_0000 % 0x100 && U32(n)[3] == n / 0x100_0000
  {
    var b, c := n / 0x100, n / 0x1_0000;
    assert b / 0x100 == c && c / 0x100 == n / 0x100_0000;
    assert U32(n) == [n % 0x100] + Bytes(b, 3);
    assert Bytes(b, 3) == [b % 0x100] + Bytes(c, 2);
    assert Bytes(c, 2) == [c % 0x100] + Bytes(c / 0x100, 1);
    assert Bytes(c / 0x100, 1) == [c / 0x100 % 0x100];
  }

  /** The header, the counts and the figures, at the offsets of the C structure. */
  lemma RecordLayout(m: Snapshot, pads: Padding)
    requires Shaped(m)
    ensures var data := Image(m, pads);
            && |data| == 4488 && data[..64] == m.uuid
            && UnpackQ(data, 64) == m.epoch && UnpackQ(data, 72) == m.generation
            && UnpackI(data, 80) == (match m.status case Bootstrap => 0 case Operational => 1 case Degraded => 2)
            && UnpackI(data, 1368) == m.totalWorkers && UnpackI(data, 4448) == m.totalLeases
            && UnpackQ(data, 4456) == m.metrics.aggMemory && UnpackQ(data, 4464) == m.metrics.allocMemory
            && UnpackI(data, 4472) == m.metrics.aggCores && UnpackI(data, 4476) == m.metrics.allocCores
            && UnpackI(data, 4480) == m.metrics.activeWorkers
  {
    var data := Image(m, pads);
    ImageContents(m, pads, data);
    assert MetricsAt(data) == ShownMetrics(m.metrics);
  }

  /** Worker i stands in forty bytes from 88 + 40 i on. */
  lemma WorkerLayout(m: Snapshot, pads: Padding, i: nat)
    requires Shaped(m) && i < 32
    ensures var data, off, w := Image(m, pads), 88 + 40 * i, m.workers[i];
            && |data| == 4488 && UnpackI(data, off) == w.id
            && UnpackQ(data, off + 8) == w.lastSeenMs && UnpackQ(data, off + 16) == w.totalMemory
            && UnpackQ(data, off + 24) == w.reservedMemory
            && UnpackI(data, off + 32) == w.totalCores && UnpackI(data, off + 36) == w.reservedCores
            && HealthName(UnpackSigned(data, off + 4)) == Known(HealthLabel(w.health))
  {
    var data := Image(m, pads);
    ImageContents(m, pads, data);
    assert WorkerAt(data, i) == ShownWorker(m.workers[i]);
  }

  /** Lease i stands in twenty-four bytes from 1376 + 24 i on. */
  lemma LeaseLayout(m: Snapshot, pads: Padding, i: nat)
    requires Shaped(m) && i < 128
    ensures var data, off, l := Image(m, pads), 1376 + 24 * i, m.leases[i];
            && |data| == 4488 && UnpackQ(data, off) == l.chunkId
            && UnpackI(data, off + 12) == l.progressBits && UnpackI(data, off + 16) == l.retries
            && LeaseName(UnpackSigned(data, off + 8)) == Known(LeaseLabel(l.status))
  {
    var data := Image(m, pads);
    ImageContents(m, pads, data);
    assert LeaseAt(data, i) == ShownLease(m.leases[i]);
  }

  // ----- Unused entries -----

  lemma ZeroWords()
    ensures U32(0) == [0, 0, 0, 0] && U64(0) == [0, 0, 0, 0, 0, 0, 0, 0]
  {
  }

  /** A table entry that was never used is zero bytes in the image, as zeroed memory is. */
  lemma UnusedIsZeroBytes()
    ensures WorkerThen(ZERO_WORKER, []) == seq(WORKER_BYTES, _ => 0)
    ensures LeaseThen(ZERO_LEASE, [0, 0, 0, 0], []) == seq(LEASE_BYTES, _ => 0)
  {
    ZeroWords();
  }

  // ----- The cluster name -----

  lemma {:induction false} UntilZeroPadded(text: seq<u8>, zeros: nat)
    requires forall i :: 0 <= i < |text| ==> text[i] != 0
    ensures UntilZero(text + seq(zeros, _ => 0)) == text
  {
    var all := text + seq(zeros, _ => 0);
    if text != [] {
      UntilZeroPadded(text[1..], zeros);
      assert all[1..] == text[1..] + seq(zeros, _ => 0);
      assert text == [text[0]] + text[1..];
    }
  }

  /** The name given at creation is shown unchanged, cut to 63 bytes. */
  lemma NameShown(text: seq<u8>)
    requires forall i :: 0 <= i < |text| ==> text[i] != 0
    ensures UntilZero(UuidField(text)) == if |text| < UUID_BYTES then text else text[..UUID_BYTES - 1]
  {
    var n := if |text| < UUID_BYTES then |text| else UUID_BYTES - 1;
    UntilZeroPadded(text[..n], UUID_BYTES - n);
  }
}
