/** The binary image of the cluster state: how the master's memory is laid out on disk
    (master/src/cluster_state.c, persist_to_wal) and how the dashboard reads it (webui/server.py,
    parse_wal). */
module WalImage {
  import opened MachineInts
  import opened ClusterModel

  // ----- Little-endian words -----

  function Bytes(n: nat, width: nat): (b: seq<u8>)
    ensures |b| == width
  {
    if width == 0 then [] else [n % 256] + Bytes(n / 256, width - 1)
  }

  function Word(b: seq<u8>): nat {
    if b == [] then 0 else b[0] + 256 * Word(b[1..])
  }

  function Limit(width: nat): nat {
    if width == 0 then 1 else 256 * Limit(width - 1)
  }

  lemma {:induction false} WordRoundTrip(n: nat, width: nat)
    requires n < Limit(width)
    ensures Word(Bytes(n, width)) == n
    decreases width
  {
    if width > 0 {
      WordRoundTrip(n / 256, width - 1);
      assert Bytes(n, width)[1..] == Bytes(n / 256, width - 1);
    }
  }

  function U32(n: u32): (b: seq<u8>) ensures |b| == 4 { Bytes(n, 4) }
  function U64(n: u64): (b: seq<u8>) ensures |b| == 8 { Bytes(n, 8) }

  lemma WordWidths()
    ensures Limit(4) == TWO_32 && Limit(8) == TWO_64
  {
    assert Limit(2) == 65536;
    assert Limit(4) == 65536 * 65536;
    assert Limit(6) == 65536 * Limit(4);
  }

  lemma U32RoundTrip(n: u32)
    ensures Word(U32(n)) == n
  {
    WordWidths();
    WordRoundTrip(n, 4);
  }

  lemma U64RoundTrip(n: u64)
    ensures Word(U64(n)) == n
  {
    WordWidths();
    WordRoundTrip(n, 8);
  }

  // ----- The image: fields in declaration order, with the compiler's padding -----

  type Pad = b: seq<u8> | |b| == 4 witness [0, 0, 0, 0]

  /** The contents of the padding, which nobody writes on purpose. */
  datatype Padding = Padding(header: Pad, workers: Pad, lease: nat -> Pad, leases: Pad, metrics: Pad)

  function HealthCode(h: Health): u32 { match h case Online => 0 case Draining => 1 case Offline => 2 }
  function StatusCode(s: Status): u32 { match s case Bootstrap => 0 case Operational => 1 case Degraded => 2 }
  function LeaseCode(s: LeaseStatus): u32 {
    match s
    case Running => 0
    case Completed => 1
    case Failed => 2
    case TimedOut => 3
  }

  /** A worker record followed by the rest of the image. */
  function WorkerThen(w: Worker, rest: seq<u8>): seq<u8> {
    U32(w.id) + (U32(HealthCode(w.health)) + (U64(w.lastSeenMs) + (U64(w.totalMemory)
      + (U64(w.reservedMemory) + (U32(w.totalCores) + (U32(w.reservedCores) + rest))))))
  }

  /** The records from i on, followed by the rest. */
  function Concat(records: seq<seq<u8>>, i: nat, rest: seq<u8>): seq<u8>
    requires i <= |records|
    decreases |records| - i
  {
    if i == |records| then rest else records[i] + Concat(records, i + 1, rest)
  }

  function WorkerRecords(ws: seq<Worker>): seq<seq<u8>> {
    seq(|ws|, i requires 0 <= i < |ws| => WorkerThen(ws[i], []))
  }

  function LeaseThen(l: Lease, pad: Pad, rest: seq<u8>): seq<u8> {
    U64(l.chunkId) + (U32(LeaseCode(l.status)) + (U32(l.progressBits) + (U32(l.retries) + (pad + rest))))
  }

  function LeaseRecords(ls: seq<Lease>, pads: Padding): seq<seq<u8>> {
    seq(|ls|, i requires 0 <= i < |ls| => LeaseThen(ls[i], pads.lease(i), []))
  }

  function MetricsImage(m: Metrics, pad: Pad): seq<u8> {
    U64(m.aggMemory) + (U64(m.allocMemory) + (U32(m.aggCores) + (U32(m.allocCores) + (U32(m.activeWorkers) + pad))))
  }

  function TailImage(m: Snapshot, pads: Padding): seq<u8>
    requires Shaped(m)
  {
    U32(m.totalLeases) + (pads.leases + MetricsImage(m.metrics, pads.metrics))
  }

  function MiddleImage(m: Snapshot, pads: Padding): seq<u8>
    requires Shaped(m)
  {
    U32(m.totalWorkers) + (pads.workers + Concat(LeaseRecords(m.leases, pads), 0, TailImage(m, pads)))
  }

  /** What the master writes. */
  function Image(m: Snapshot, pads: Padding): seq<u8>
    requires Shaped(m)
  {
    m.uuid + (U64(m.epoch) + (U64(m.generation) + (U32(StatusCode(m.status)) + (pads.header
      + Concat(WorkerRecords(m.workers), 0, MiddleImage(m, pads))))))
  }

  // ----- Reading -----

  function UnpackQ(data: seq<u8>, off: nat): nat
    requires off + 8 <= |data|
  {
    Word(data[off..off + 8])
  }

  function UnpackI(data: seq<u8>, off: nat): nat
    requires off + 4 <= |data|
  {
    Word(data[off..off + 4])
  }

  /** A signed 32-bit word. */
  function UnpackSigned(data: seq<u8>, off: nat): int
    requires off + 4 <= |data|
  {
    var n := UnpackI(data, off);
    if n < TWO_32 / 2 then n else n - TWO_32
  }

  /** The display name of an enumeration value, or the value itself when it has none. */
  datatype Name = Known(text: string) | Unknown(code: int)

  function HealthName(code: int): Name {
    if code == 0 then Known("ONLINE")
    else if code == 1 then Known("DRAINING")
    else if code == 2 then Known("OFFLINE")
    else Unknown(code)
  }

  function StatusName(code: int): Name {
    if code == 0 then Known("BOOTSTRAP")
    else if code == 1 then Known("OPERATIONAL")
    else if code == 2 then Known("DEGRADED")
    else Unknown(code)
  }

  function LeaseName(code: int): Name {
    if code == 0 then Known("RUNNING") else if code == 1 then Known("COMPLETED") else if code == 2 then Known("FAILED")
    else if code == 3 then Known("TIMED_OUT") else Unknown(code)
  }

  datatype WorkerView = WorkerView(id: nat, health: Name, lastSeenMs: nat, totalMemory: nat, reservedMemory: nat,
                                   totalCores: nat, reservedCores: nat)
  datatype LeaseView = LeaseView(chunkId: nat, status: Name, progressBits: nat, retries: nat)
  datatype MetricsView = MetricsView(aggMemory: nat, allocMemory: nat, aggCores: nat, allocCores: nat,
                                     activeWorkers: nat)

  datatype View = View(
    uuid: seq<u8>,
    epoch: nat,
    generation: nat,
    status: Name,
    workers: seq<WorkerView>,
    totalWorkers: int,
    leases: seq<LeaseView>,
    totalLeases: int,
    metrics: MetricsView)

  const HEADER_BYTES: nat := 84
  const WORKERS_AT: nat := 88
  const WORKER_BYTES: nat := 40
  const TOTAL_WORKERS_AT: nat := 1368
  const LEASES_AT: nat := 1376
  const LEASE_BYTES: nat := 24
  const TOTAL_LEASES_AT: nat := 4448
  const METRICS_AT: nat := 4456
  const IMAGE_BYTES: nat := 4488

  const NO_METRICS: MetricsView := MetricsView(0, 0, 0, 0, 0)
  const EMPTY_VIEW: View := View(['-' as int], 0, 0, Known("BOOTSTRAP"), [], 0, [], 0, NO_METRICS)

  /** The bytes before the first zero. */
  function UntilZero(b: seq<u8>): seq<u8> {
    if b == [] || b[0] == 0 then [] else [b[0]] + UntilZero(b[1..])
  }

  function ReadWorker(data: seq<u8>, off: nat): WorkerView
    requires off + WORKER_BYTES <= |data|
  {
    WorkerView(UnpackI(data, off), HealthName(UnpackSigned(data, off + 4)), UnpackQ(data, off + 8),
               UnpackQ(data, off + 16),
               UnpackQ(data, off + 24), UnpackI(data, off + 32), UnpackI(data, off + 36))
  }

  function WorkerAt(data: seq<u8>, i: nat): WorkerView
    requires WORKERS_AT + WORKER_BYTES * (i + 1) <= |data|
  {
    ReadWorker(data, WORKERS_AT + WORKER_BYTES * i)
  }

  function ReadLease(data: seq<u8>, off: nat): LeaseView
    requires off + LEASE_BYTES <= |data|
  {
    LeaseView(UnpackQ(data, off), LeaseName(UnpackSigned(data, off + 8)), UnpackI(data, off + 12),
              UnpackI(data, off + 16))
  }

  function LeaseAt(data: seq<u8>, i: nat): LeaseView
    requires LEASES_AT + LEASE_BYTES * (i + 1) <= |data|
  {
    ReadLease(data, LEASES_AT + LEASE_BYTES * i)
  }

  /** How many of the first n table entries lie inside the data. */
  function WorkersInside(size: nat, n: nat): (k: nat)
    ensures k <= n && (k > 0 ==> WORKERS_AT + WORKER_BYTES * k <= size)
    ensures k < n ==> WORKERS_AT + WORKER_BYTES * (k + 1) > size
  {
    if n == 0 || WORKERS_AT + WORKER_BYTES * n <= size then n else WorkersInside(size, n - 1)
  }

  function LeasesInside(size: nat, n: nat): (k: nat)
    ensures k <= n && (k > 0 ==> LEASES_AT + LEASE_BYTES * k <= size)
    ensures k < n ==> LEASES_AT + LEASE_BYTES * (k + 1) > size
  {
    if n == 0 || LEASES_AT + LEASE_BYTES * n <= size then n else LeasesInside(size, n - 1)
  }

  /** The entries with a nonzero id among the first n. */
  function WorkersRead(data: seq<u8>, n: nat): seq<WorkerView>
    requires n > 0 ==> WORKERS_AT + WORKER_BYTES * n <= |data|
  {
    if n == 0 then [] else
      WorkersRead(data, n - 1) + if WorkerAt(data, n - 1).id != 0 then [WorkerAt(data, n - 1)] else []
  }

  function LeasesRead(data: seq<u8>, n: nat): seq<LeaseView>
    requires n > 0 ==> LEASES_AT + LEASE_BYTES * n <= |data|
  {
    if n == 0 then [] else
      LeasesRead(data, n - 1) + if LeaseAt(data, n - 1).chunkId != 0 then [LeaseAt(data, n - 1)] else []
  }

  /** s[:n] when n is positive, all of s otherwise. */
  function Limited<T>(s: seq<T>, n: int): seq<T> {
    if 0 < n < |s| then s[..n] else s
  }

  function MetricsAt(data: seq<u8>): MetricsView {
    if METRICS_AT + 32 <= |data|
    then MetricsView(UnpackQ(data, METRICS_AT), UnpackQ(data, METRICS_AT + 8), UnpackI(data, METRICS_AT + 16),
                     UnpackI(data, METRICS_AT + 20), UnpackI(data, METRICS_AT + 24))
    else NO_METRICS
  }

  /** The count behind a table, or zero if the file ends before it. */
  function TotalAt(data: seq<u8>, off: nat): int {
    if off + 8 > |data| then 0 else UnpackSigned(data, off)
  }

  function Parsed(data: seq<u8>): View {
    if |data| < HEADER_BYTES then EMPTY_VIEW else
      var totalWorkers, totalLeases := TotalAt(data, TOTAL_WORKERS_AT), TotalAt(data, TOTAL_LEASES_AT);
      View(UntilZero(data[..UUID_BYTES]), UnpackQ(data, 64), UnpackQ(data, 72), StatusName(UnpackSigned(data, 80)),
           Limited(WorkersRead(data, WorkersInside(|data|, MAX_WORKERS)), totalWorkers), totalWorkers,
           Limited(LeasesRead(data, LeasesInside(|data|, MAX_LEASES)), totalLeases), totalLeases,
           MetricsAt(data))
  }

  /** The dashboard's reader, with its running offset; it copes with a file of any length. */
  method ParseWal(data: seq<u8>) returns (view: View)
    ensures view == Parsed(data)
  {
    if |data| < HEADER_BYTES {
      return EMPTY_VIEW;
    }
    var off := 0;
    var uuid := UntilZero(data[off..off + UUID_BYTES]);
    off := off + UUID_BYTES;
    var epoch := UnpackQ(data, off);
    off := off + 8;
    var generation := UnpackQ(data, off);
    off := off + 8;
    var status := StatusName(UnpackSigned(data, off));
    off := off + 4;
    off := off + 4;

    var workers := ReadWorkers(data, off);
    off := off + MAX_WORKERS * WORKER_BYTES;
    var totalWorkers := TotalAt(data, off);
    off := off + 8;

    var leases := ReadLeases(data, off);
    off := off + MAX_LEASES * LEASE_BYTES;
    var totalLeases := TotalAt(data, off);
    off := off + 8;

    assert off == METRICS_AT;
    view := View(uuid, epoch, generation, status, Limited(workers, totalWorkers), totalWorkers,
                 Limited(leases, totalLeases), totalLeases, MetricsAt(data));
  }

  lemma WorkersReadNext(data: seq<u8>, i: nat, w: WorkerView)
    requires WORKERS_AT + WORKER_BYTES * (i + 1) <= |data| && w == WorkerAt(data, i)
    ensures WorkersRead(data, i + 1) == if w.id != 0 then WorkersRead(data, i) + [w] else WorkersRead(data, i)
  {
  }

  lemma WorkersEnd(size: nat, n: nat, i: nat)
    requires i <= n && (i > 0 ==> WORKERS_AT + WORKER_BYTES * i <= size)
    requires i < n ==> WORKERS_AT + WORKER_BYTES * (i + 1) > size
    ensures WorkersInside(size, n) == i
  {
  }

  lemma LeasesReadNext(data: seq<u8>, i: nat, l: LeaseView)
    requires LEASES_AT + LEASE_BYTES * (i + 1) <= |data| && l == LeaseAt(data, i)
    ensures LeasesRead(data, i + 1) == if l.chunkId != 0 then LeasesRead(data, i) + [l] else LeasesRead(data, i)
  {
  }

  lemma LeasesEnd(size: nat, n: nat, i: nat)
    requires i <= n && (i > 0 ==> LEASES_AT + LEASE_BYTES * i <= size)
    requires i < n ==> LEASES_AT + LEASE_BYTES * (i + 1) > size
    ensures LeasesInside(size, n) == i
  {
  }

  method ReadWorkers(data: seq<u8>, off: nat) returns (workers: seq<WorkerView>)
    requires off == WORKERS_AT
    ensures workers == WorkersRead(data, WorkersInside(|data|, MAX_WORKERS))
  {
    workers := [];
    var i := 0;
    while i < MAX_WORKERS
      invariant i <= MAX_WORKERS && (i > 0 ==> off + WORKER_BYTES * i <= |data|)
      invariant workers == WorkersRead(data, i)
    {
      var woff := off + i * WORKER_BYTES;
      if woff + WORKER_BYTES > |data| {
        break;
      }
      workers := AddWorker(data, woff, i, workers);
      i := i + 1;
    }
    WorkersEnd(|data|, MAX_WORKERS, i);
  }

  /** Entry i is added to the list unless its id is zero. */
  method AddWorker(data: seq<u8>, woff: nat, ghost i: nat, workers: seq<WorkerView>) returns (longer: seq<WorkerView>)
    requires woff == WORKERS_AT + WORKER_BYTES * i && woff + WORKER_BYTES <= |data| && workers == WorkersRead(data, i)
    ensures longer == WorkersRead(data, i + 1)
  {
    var w := ReadWorker(data, woff);
    WorkersReadNext(data, i, w);
    longer := if w.id != 0 then workers + [w] else workers;
  }

  method ReadLeases(data: seq<u8>, off: nat) returns (leases: seq<LeaseView>)
    requires off == LEASES_AT
    ensures leases == LeasesRead(data, LeasesInside(|data|, MAX_LEASES))
  {
    leases := [];
    var i := 0;
    while i < MAX_LEASES
      invariant i <= MAX_LEASES && (i > 0 ==> off + LEASE_BYTES * i <= |data|)
      invariant leases == LeasesRead(data, i)
    {
      var loff := off + i * LEASE_BYTES;
      if loff + LEASE_BYTES > |data| {
        break;
      }
      leases := AddLease(data, loff, i, leases);
      i := i + 1;
    }
    LeasesEnd(|data|, MAX_LEASES, i);
  }

  /** Entry i is added to the list unless its chunk id is zero. */
  method AddLease(data: seq<u8>, loff: nat, ghost i: nat, leases: seq<LeaseView>) returns (longer: seq<LeaseView>)
    requires loff == LEASES_AT + LEASE_BYTES * i && loff + LEASE_BYTES <= |data| && leases == LeasesRead(data, i)
    ensures longer == LeasesRead(data, i + 1)
  {
    var l := ReadLease(data, loff);
    LeasesReadNext(data, i, l);
    longer := if l.chunkId != 0 then leases + [l] else leases;
  }
}
