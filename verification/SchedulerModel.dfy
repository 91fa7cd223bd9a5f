/** The scheduler's tables as values, and the effect of each entry point on them
    (master/src/scheduler.c). */
module SchedulerModel {
  import opened MachineInts
  import opened Options

  const MAX_WORKERS: nat := 64
  const MAX_CHUNKS: nat := 128
  const LEASE_MS: nat := 30000

  type WorkerId = string

  datatype Worker = Worker(
    id: WorkerId,
    platform: int,
    runtime: int,
    cpuUnits: u8,
    reservCpu: u8,
    freeMemMb: u64,
    reservMemMb: u64,
    batteryPct: real,
    activeChunks: int,
    hasTouchInput: bool,
    draining: bool,
    healthy: bool,
    reliability: real)

  datatype Chunk = Chunk(
    id: u64,
    platform: int,
    runtime: int,
    cpu: u8,
    memMb: u64,
    requiresTouch: bool,
    isBlocked: bool,
    preferredNode: u32)

  datatype Lease = Lease(chunkId: u64, workerId: WorkerId, expiresMs: u64, isActive: bool)

  datatype Sched = Sched(workers: seq<Worker>, chunks: seq<Chunk>, leases: seq<Lease>)

  // ----- Lookups: the first matching entry from i on, or -1 -----

  function WorkerFrom(workers: seq<Worker>, id: WorkerId, i: nat): (k: int)
    requires i <= |workers|
    ensures k == -1 || i <= k < |workers|
    ensures k >= 0 ==> workers[k].id == id
    ensures forall m :: i <= m < (if k >= 0 then k else |workers|) ==> workers[m].id != id
    decreases |workers| - i
  {
    if i == |workers| then -1 else if workers[i].id == id then i else WorkerFrom(workers, id, i + 1)
  }

  function ChunkFrom(chunks: seq<Chunk>, id: u64, i: nat): (k: int)
    requires i <= |chunks|
    ensures k == -1 || i <= k < |chunks|
    ensures k >= 0 ==> chunks[k].id == id
    ensures forall m :: i <= m < (if k >= 0 then k else |chunks|) ==> chunks[m].id != id
    decreases |chunks| - i
  {
    if i == |chunks| then -1 else if chunks[i].id == id then i else ChunkFrom(chunks, id, i + 1)
  }

  predicate Covers(lease: Lease, chunkId: u64) { lease.isActive && lease.chunkId == chunkId }

  function ActiveLeaseFrom(leases: seq<Lease>, chunkId: u64, i: nat): (k: int)
    requires i <= |leases|
    ensures k == -1 || i <= k < |leases|
    ensures k >= 0 ==> Covers(leases[k], chunkId)
    ensures forall m :: i <= m < (if k >= 0 then k else |leases|) ==> !Covers(leases[m], chunkId)
    decreases |leases| - i
  {
    if i == |leases| then -1 else if Covers(leases[i], chunkId) then i else ActiveLeaseFrom(leases, chunkId, i + 1)
  }

  function FreeSlotFrom(leases: seq<Lease>, i: nat): (k: int)
    requires i <= |leases|
    ensures k == -1 || i <= k < |leases|
    ensures k >= 0 ==> !leases[k].isActive
    ensures forall m :: i <= m < (if k >= 0 then k else |leases|) ==> leases[m].isActive
    decreases |leases| - i
  {
    if i == |leases| then -1 else if !leases[i].isActive then i else FreeSlotFrom(leases, i + 1)
  }

  // ----- Filters and scores -----

  predicate HardFilters(chunk: Chunk, worker: Worker) {
    && worker.healthy && !worker.draining
    && worker.platform == chunk.platform && worker.runtime == chunk.runtime
    && (chunk.requiresTouch ==> worker.hasTouchInput)
    && (if worker.cpuUnits > worker.reservCpu then worker.cpuUnits - worker.reservCpu else 0) >= chunk.cpu
    && (if worker.freeMemMb > worker.reservMemMb then worker.freeMemMb - worker.reservMemMb else 0) >= chunk.memMb
  }

  predicate IsDigit(c: char) { '0' <= c <= '9' }

  /** The value of the decimal digits at the start of text[i..], appended to those already read. */
  function DigitsFrom(text: string, i: nat, read: nat): nat
    requires i <= |text|
    decreases |text| - i
  {
    if i < |text| && IsDigit(text[i]) then DigitsFrom(text, i + 1, 10 * read + (text[i] as int - '0' as int)) else read
  }

  function SkipSpaces(text: string, i: nat): (k: nat)
    requires i <= |text|
    ensures i <= k <= |text|
    decreases |text| - i
  {
    if i < |text| && (text[i] == ' ' || '\t' <= text[i] <= '\r') then SkipSpaces(text, i + 1) else i
  }

  /** The number after the seven-character prefix of a worker id, as an unsigned 32-bit word. */
  function NodeNumber(id: WorkerId): u32 {
    var text := if |id| >= 7 then id[7..] else "";
    var i := SkipSpaces(text, 0);
    if i < |text| && text[i] == '-' then (TWO_32 - DigitsFrom(text, i + 1, 0)) % TWO_32
    else if i < |text| && text[i] == '+' then DigitsFrom(text, i + 1, 0) % TWO_32
    else DigitsFrom(text, i, 0) % TWO_32
  }

  /** The score over the reals. A worker without CPU units has no real score: the division by zero
      gives a value that compares greater than nothing. */
  function Score(chunk: Chunk, worker: Worker): Option<real> {
    if worker.cpuUnits == 0 then None else
      Some((worker.cpuUnits - worker.reservCpu) as real / worker.cpuUnits as real * 40.0
           + worker.reliability * 30.0
           + (if NodeNumber(worker.id) == chunk.preferredNode then 20.0 else 0.0)
           + (if worker.batteryPct >= 0.0 then worker.batteryPct / 100.0 * 10.0 else 10.0))
  }

  const SCORE_FLOOR: real := -1.0

  /** The worker passes the filters and scores above the floor the search starts from. */
  predicate Placeable(chunk: Chunk, worker: Worker) {
    HardFilters(chunk, worker) && Score(chunk, worker).Some? && Score(chunk, worker).value > SCORE_FLOOR
  }

  /** Worker b is the first of those with the highest score among the first n workers. */
  ghost predicate IsBest(workers: seq<Worker>, chunk: Chunk, n: nat, b: int)
    requires n <= |workers|
  {
    && 0 <= b < n && Placeable(chunk, workers[b])
    && (forall w :: 0 <= w < b && Placeable(chunk, workers[w]) ==>
          Score(chunk, workers[w]).value < Score(chunk, workers[b]).value)
    && (forall w :: b < w < n && Placeable(chunk, workers[w]) ==>
          Score(chunk, workers[w]).value <= Score(chunk, workers[b]).value)
  }

  function Best(workers: seq<Worker>, chunk: Chunk, n: nat): (b: int)
    requires n <= |workers|
    ensures b == -1 || IsBest(workers, chunk, n, b)
    ensures b == -1 <==> forall w :: 0 <= w < n ==> !Placeable(chunk, workers[w])
  {
    if n == 0 then -1 else
      var b := Best(workers, chunk, n - 1);
      if Placeable(chunk, workers[n - 1])
         && (b < 0 || Score(chunk, workers[n - 1]).value > Score(chunk, workers[b]).value)
      then n - 1 else b
  }

  // ----- Reservations -----

  function Charge(worker: Worker, chunk: Chunk): Worker {
    worker.(reservCpu := (worker.reservCpu + chunk.cpu) % TWO_8,
            reservMemMb := (worker.reservMemMb + chunk.memMb) % TWO_64,
            activeChunks := worker.activeChunks + 1)
  }

  function Refund(worker: Worker, chunk: Chunk): Worker {
    worker.(reservCpu := if worker.reservCpu >= chunk.cpu then worker.reservCpu - chunk.cpu else worker.reservCpu,
            reservMemMb := if worker.reservMemMb >= chunk.memMb then worker.reservMemMb - chunk.memMb
                           else worker.reservMemMb,
            activeChunks := worker.activeChunks - 1)
  }

  /** Lease l ends: it becomes inactive and its worker gets the chunk's demand back. */
  function EndLease(s: Sched, l: nat, chunk: Chunk): Sched
    requires l < |s.leases|
  {
    var w := WorkerFrom(s.workers, s.leases[l].workerId, 0);
    s.(leases := s.leases[l := s.leases[l].(isActive := false)],
       workers := if w < 0 then s.workers else s.workers[w := Refund(s.workers[w], chunk)])
  }

  function NewLease(chunk: Chunk, worker: Worker, nowMs: u64): Lease {
    Lease(chunk.id, worker.id, (nowMs + LEASE_MS) % TWO_64, true)
  }

  /** Record a lease in the first free slot, or at the end of the table while there is room. */
  function Record(leases: seq<Lease>, lease: Lease): Option<seq<Lease>> {
    var slot := FreeSlotFrom(leases, 0);
    if slot >= 0 then Some(leases[slot := lease])
    else if |leases| < MAX_CHUNKS then Some(leases + [lease])
    else None
  }

  // ----- Entry points -----

  const EMPTY: Sched := Sched([], [], [])

  function Register(s: Sched, worker: Worker): (Sched, bool) {
    var i := WorkerFrom(s.workers, worker.id, 0);
    if i >= 0 then (s.(workers := s.workers[i := worker]), true)
    else if |s.workers| >= MAX_WORKERS then (s, false)
    else (s.(workers := s.workers + [worker]), true)
  }

  function Submit(s: Sched, chunk: Chunk): (Sched, bool) {
    var i := ChunkFrom(s.chunks, chunk.id, 0);
    if i >= 0 then (s.(chunks := s.chunks[i := chunk]), true)
    else if |s.chunks| >= MAX_CHUNKS then (s, false)
    else (s.(chunks := s.chunks + [chunk]), true)
  }

  /** The tables during a tick and the leases handed out so far. */
  datatype Ticking = Ticking(s: Sched, out: seq<Lease>)

  /** What a tick finds for chunk c: its lease still holds, or it may be placed from this state. */
  function AfterExpiry(s: Sched, c: nat, nowMs: u64): Option<Sched>
    requires c < |s.chunks|
  {
    var l := ActiveLeaseFrom(s.leases, s.chunks[c].id, 0);
    if l < 0 then Some(s)
    else if nowMs > s.leases[l].expiresMs then Some(EndLease(s, l, s.chunks[c]))
    else None
  }

  function Place(t: Ticking, c: nat, nowMs: u64): Ticking
    requires c < |t.s.chunks|
  {
    var chunk := t.s.chunks[c];
    var b := Best(t.s.workers, chunk, |t.s.workers|);
    if b < 0 then t else
      var lease := NewLease(chunk, t.s.workers[b], nowMs);
      var charged := t.s.(workers := t.s.workers[b := Charge(t.s.workers[b], chunk)]);
      match Record(t.s.leases, lease)
      case Some(leases) => Ticking(charged.(leases := leases), t.out + [lease])
      case None => t.(s := charged)
  }

  /** The turn of chunk c in a tick. */
  function Turn(t: Ticking, c: nat, nowMs: u64): Ticking
    requires c < |t.s.chunks|
  {
    if t.s.chunks[c].isBlocked then t else
      match AfterExpiry(t.s, c, nowMs)
      case None => t
      case Some(s) => Place(t.(s := s), c, nowMs)
  }

  /** The turn of chunk c, unless enough leases are out already. */
  function LimitedTurn(t: Ticking, c: nat, nowMs: u64, maxLeases: int): Ticking
    requires c < |t.s.chunks|
  {
    if |t.out| >= maxLeases then t else Turn(t, c, nowMs)
  }

  /** The state when the turns of the first c chunks are over. */
  function TicksTo(s: Sched, nowMs: u64, maxLeases: int, c: nat): (t: Ticking)
    requires c <= |s.chunks|
    ensures t.s.chunks == s.chunks
  {
    if c == 0 then Ticking(s, []) else LimitedTurn(TicksTo(s, nowMs, maxLeases, c - 1), c - 1, nowMs, maxLeases)
  }

  function Tick(s: Sched, nowMs: u64, maxLeases: int): Ticking {
    TicksTo(s, nowMs, maxLeases, |s.chunks|)
  }

  function Release(s: Sched, chunkId: u64): Sched {
    var l := ActiveLeaseFrom(s.leases, chunkId, 0);
    if l < 0 then s else
      var c := ChunkFrom(s.chunks, chunkId, 0);
      if c < 0 then s.(leases := s.leases[l := s.leases[l].(isActive := false)])
      else EndLease(s, l, s.chunks[c]).(chunks := s.chunks[..c] + s.chunks[c + 1..])
  }
}
