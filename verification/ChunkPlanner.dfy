/** The chunk planner (master/src/chunk_planner.c): deterministic chunk ids, the two built-in
    planning strategies, strategy lookup and the topology check. */
module ChunkPlanner {
  import opened MachineInts
  import opened Counting
  import opened PlanGraph
  import opened ChunkIdMixer

  datatype ChunkNode = ChunkNode(
    id: ChunkId,
    memoryDemandBytes: u64,
    cpuCoresDemand: u64,
    targetNode: u32,
    dataLocality: real)

  datatype Plan = Plan(chunks: seq<ChunkNode>, edges: seq<Edge>, isValid: bool) {
    function Graph(): (g: Graph)
      ensures |g.ids| == |chunks| && g.edges == edges
      ensures forall i :: 0 <= i < |chunks| ==> g.ids[i] == chunks[i].id
    {
      PlanGraph.Graph(seq(|chunks|, i requires 0 <= i < |chunks| => chunks[i].id), edges)
    }
  }

  // ----- The topology check -----

  /** What is left of position j's in-degree after the first m listed chunks and the first i edges
      of the chunk with id current have been subtracted. */
  ghost function Remaining(g: Graph, order: seq<nat>, m: nat, current: ChunkId, i: nat, j: nat): int
    requires Positions(g, order) && m <= |order| && i <= |g.edges| && j < |g.ids|
  {
    InDegree(g.edges, g.ids[j])
    - Supply(g.edges, Done(g, order, m), g.ids[j])
    - EdgeCount(g.edges[..i], current, g.ids[j])
  }

  lemma {:induction false} EdgeCountPrefix(edges: seq<Edge>, i: nat, src: ChunkId, dst: ChunkId)
    requires i <= |edges|
    ensures EdgeCount(edges[..i], src, dst) <= EdgeCount(edges, src, dst)
    decreases |edges| - i
  {
    if i == |edges| {
      assert edges[..i] == edges;
    } else {
      EdgeCountPrefix(edges, i + 1, src, dst);
      assert edges[..i + 1][..i] == edges[..i];
    }
  }

  /** A position whose in-degree has been counted down to zero is supplied by the queue so far. */
  lemma ReleasedIsSupplied(g: Graph, order: seq<nat>, head: nat, i: nat, j: nat)
    requires Positions(g, order) && 0 < head <= |order| && i <= |g.edges| && j < |g.ids|
    requires Remaining(g, order, head - 1, g.ids[order[head - 1]], i, j) <= 0
    ensures Supplied(g, order, |order|, j)
  {
    var src, dst := g.ids[order[head - 1]], g.ids[j];
    var before := Done(g, order, head - 1);
    calc {
      InDegree(g.edges, dst);
    <=
      Supply(g.edges, before, dst) + EdgeCount(g.edges[..i], src, dst);
    <= { EdgeCountPrefix(g.edges, i, src, dst); }
      Supply(g.edges, before, dst) + EdgeCount(g.edges, src, dst);
    == { SupplyAdd(g.edges, before, src, dst); }
      Supply(g.edges, before + multiset{src}, dst);
    == { DoneSnoc(g, order, head - 1); }
      Supply(g.edges, Done(g, order, head), dst);
    <= { DoneGrows(g, order, head); SupplyMonotone(g.edges, Done(g, order, head), Done(g, order, |order|), dst); }
      Supply(g.edges, Done(g, order, |order|), dst);
    }
  }

  /** The positions queued first are those without in-edges. */
  lemma InitialQueue(g: Graph, q: seq<nat>)
    requires Positions(g, q)
    requires forall t :: 0 <= t < |q| ==> InDegree(g.edges, g.ids[q[t]]) == 0
    ensures IsSupplyOrder(g, q)
  {
  }

  /** A queue followed to its end holds all positions exactly when the graph can be completed. */
  lemma AllFollowed(g: Graph, deg: seq<int>, q: seq<nat>)
    requires Settled(g, deg, q, |q|)
    ensures |q| == |g.ids| <==> Completable(g)
  {
    forall j | 0 <= j < |g.ids| && j !in q ensures !Supplied(g, q, |q|, j) {
      assert deg[j] == Remaining(g, q, |q|, 0, 0, j);
    }
    CompleteIffSaturated(g, q);
  }

  lemma CompleteIffSaturated(g: Graph, q: seq<nat>)
    requires IsSupplyOrder(g, q) && Saturated(g, q)
    ensures |q| == |g.ids| <==> Completable(g)
  {
    if Completable(g) {
      var order :| IsSupplyOrder(g, order) && |order| == |g.ids|;
      PositionsBound(g, order);
      SaturatedCoversOrder(g, q, order, |order|);
      assert forall j :: j in order ==> j in q;
      PositionsBound(g, q);
    }
  }

  method CountInDegrees(plan: Plan, inDegree: array<int>)
    requires inDegree.Length == MAX_CHUNKS && |plan.chunks| <= MAX_CHUNKS
    requires forall j :: 0 <= j < MAX_CHUNKS ==> inDegree[j] == 0
    modifies inDegree
    ensures forall j :: 0 <= j < |plan.chunks| ==> inDegree[j] == InDegree(plan.edges, plan.chunks[j].id)
  {
    var n := |plan.chunks|;
    for i := 0 to |plan.edges|
      invariant forall j :: 0 <= j < n ==> inDegree[j] == InDegree(plan.edges[..i], plan.chunks[j].id)
    {
      var dest := plan.edges[i].dst;
      assert plan.edges[..i + 1][..i] == plan.edges[..i];
      for j := 0 to n
        invariant forall k :: 0 <= k < j ==> inDegree[k] == InDegree(plan.edges[..i + 1], plan.chunks[k].id)
        invariant forall k :: j <= k < n ==> inDegree[k] == InDegree(plan.edges[..i], plan.chunks[k].id)
      {
        if plan.chunks[j].id == dest {
          inDegree[j] := inDegree[j] + 1;
        }
      }
    }
    assert plan.edges[..|plan.edges|] == plan.edges;
  }

  /** The counters while the edges of the chunk at head - 1 are followed: the first i edges have
      been followed for all positions, and edge i for the positions below j. */
  ghost predicate Counted(g: Graph, deg: seq<int>, order: seq<nat>, head: nat, i: nat, j: nat)
    requires |deg| >= |g.ids| && Positions(g, order) && 0 < head <= |order| && i <= |g.edges|
    requires j > 0 ==> i < |g.edges|
  {
    forall k {:trigger CountedAt(g, deg, order, head, i, j, k)} :: 0 <= k < |g.ids| ==>
      CountedAt(g, deg, order, head, i, j, k)
  }

  /** The counter of position k at that moment. */
  ghost predicate CountedAt(g: Graph, deg: seq<int>, order: seq<nat>, head: nat, i: nat, j: nat, k: nat)
    requires |deg| >= |g.ids| && Positions(g, order) && 0 < head <= |order| && i <= |g.edges|
    requires (j > 0 ==> i < |g.edges|) && k < |g.ids|
  {
    deg[k] == Remaining(g, order, head - 1, g.ids[order[head - 1]], if k < j then i + 1 else i, k)
  }

  /** Queued are exactly the positions counted down to zero or below. */
  ghost predicate QueuedIffZero(g: Graph, deg: seq<int>, order: seq<nat>)
    requires |deg| >= |g.ids|
  {
    forall k :: 0 <= k < |g.ids| ==> (k in order <==> deg[k] <= 0)
  }

  ghost predicate Scanning(g: Graph, deg: seq<int>, order: seq<nat>, head: nat, i: nat, j: nat) {
    && |deg| >= |g.ids| && 0 < head <= |order| && j <= |g.ids|
    && i <= |g.edges| && (j > 0 ==> i < |g.edges|)
    && IsSupplyOrder(g, order)
    && Counted(g, deg, order, head, i, j)
    && QueuedIffZero(g, deg, order)
  }

  /** Counting position j down along edge i. */
  lemma CountStep(g: Graph, deg: seq<int>, order: seq<nat>, head: nat, i: nat, j: nat, deg': seq<int>)
    requires |deg| >= |g.ids| && Positions(g, order) && 0 < head <= |order| && i < |g.edges| && j < |g.ids|
    requires Counted(g, deg, order, head, i, j) && g.edges[i].src == g.ids[order[head - 1]]
    requires deg' == if g.ids[j] == g.edges[i].dst then deg[j := deg[j] - 1] else deg
    ensures Counted(g, deg', order, head, i, j + 1)
  {
    assert g.edges[..i + 1][..i] == g.edges[..i];
    var next := j + 1;
    forall k | 0 <= k < |g.ids| ensures CountedAt(g, deg', order, head, i, next, k) {
      assert CountedAt(g, deg, order, head, i, j, k);
    }
  }

  lemma CountedSnoc(g: Graph, deg: seq<int>, order: seq<nat>, head: nat, i: nat, j: nat, longer: seq<nat>)
    requires |deg| >= |g.ids| && Positions(g, order) && Positions(g, longer) && order <= longer
    requires 0 < head <= |order| && i <= |g.edges| && (j > 0 ==> i < |g.edges|)
    requires Counted(g, deg, order, head, i, j)
    ensures Counted(g, deg, longer, head, i, j)
  {
    DonePrefix(g, order, longer, head - 1);
    forall k | 0 <= k < |g.ids| ensures CountedAt(g, deg, longer, head, i, j, k) {
      assert CountedAt(g, deg, order, head, i, j, k);
    }
  }

  /** The counters with position j counted down. */
  function CountedDown(deg: seq<int>, j: nat): (r: seq<int>)
    requires j < |deg|
    ensures |r| == |deg|
  {
    deg[j := deg[j] - 1]
  }

  /** The queue after position j has been counted down: it joins when its counter has reached zero. */
  function Joined(order: seq<nat>, deg: seq<int>, j: nat): seq<nat>
    requires j < |deg|
  {
    if deg[j] == 0 then order + [j] else order
  }

  lemma QueuedAfter(g: Graph, deg: seq<int>, order: seq<nat>, j: nat)
    requires |deg| >= |g.ids| && j < |g.ids| && QueuedIffZero(g, deg, order)
    ensures CountedDown(deg, j)[j] == 0 ==> j !in order
    ensures QueuedIffZero(g, CountedDown(deg, j), Joined(order, CountedDown(deg, j), j))
  {
    assert j in order <==> deg[j] <= 0;
  }

  lemma ScanMiss(g: Graph, deg: seq<int>, order: seq<nat>, head: nat, i: nat, j: nat)
    requires Scanning(g, deg, order, head, i, j) && i < |g.edges| && j < |g.ids|
    requires g.edges[i].src == g.ids[order[head - 1]] && g.ids[j] != g.edges[i].dst
    ensures Scanning(g, deg, order, head, i, j + 1)
  {
    CountStep(g, deg, order, head, i, j, deg);
  }

  /** Position j is counted down and stays where it is. */
  lemma ScanHit(g: Graph, deg: seq<int>, order: seq<nat>, head: nat, i: nat, j: nat, deg': seq<int>)
    requires Scanning(g, deg, order, head, i, j) && i < |g.edges| && j < |g.ids|
    requires g.edges[i].src == g.ids[order[head - 1]] && g.ids[j] == g.edges[i].dst
    requires deg' == CountedDown(deg, j) && deg'[j] != 0
    ensures Scanning(g, deg', order, head, i, j + 1)
  {
    CountStep(g, deg, order, head, i, j, deg');
    QueuedAfter(g, deg, order, j);
  }

  /** The queue stays a supply order when a position counted down to zero joins it. */
  lemma JoinKeepsOrder(g: Graph, deg: seq<int>, order: seq<nat>, head: nat, i: nat, j: nat, order': seq<nat>)
    requires |deg| >= |g.ids| && IsSupplyOrder(g, order) && 0 < head <= |order| && i < |g.edges| && j < |g.ids|
    requires Counted(g, deg, order, head, i, j + 1) && deg[j] == 0 && j !in order && order' == order + [j]
    ensures IsSupplyOrder(g, order') && Counted(g, deg, order', head, i, j + 1)
  {
    assert CountedAt(g, deg, order, head, i, j + 1, j);
    ReleasedIsSupplied(g, order, head, i + 1, j);
    SupplyOrderSnoc(g, order, j, order');
    CountedSnoc(g, deg, order, head, i, j + 1, order');
  }

  /** Position j is counted down to zero and joins the queue. */
  lemma ScanJoin(g: Graph, deg: seq<int>, order: seq<nat>, head: nat, i: nat, j: nat, deg': seq<int>, order': seq<nat>)
    requires Scanning(g, deg, order, head, i, j) && i < |g.edges| && j < |g.ids|
    requires g.edges[i].src == g.ids[order[head - 1]] && g.ids[j] == g.edges[i].dst
    requires deg' == CountedDown(deg, j) && deg'[j] == 0 && order' == order + [j]
    ensures Scanning(g, deg', order', head, i, j + 1)
  {
    CountStep(g, deg, order, head, i, j, deg');
    QueuedAfter(g, deg, order, j);
    JoinKeepsOrder(g, deg', order, head, i, j, order');
  }

  lemma ScanningBound(g: Graph, deg: seq<int>, order: seq<nat>, head: nat, i: nat, j: nat)
    requires Scanning(g, deg, order, head, i, j)
    ensures |order| <= |g.ids|
  {
    PositionsBound(g, order);
  }

  /** The inner step of the scan when edge i leads to position j. */
  lemma ScanStep(g: Graph, deg: seq<int>, order: seq<nat>, head: nat, i: nat, j: nat, deg': seq<int>, order': seq<nat>)
    requires Scanning(g, deg, order, head, i, j) && i < |g.edges| && j < |g.ids|
    requires g.edges[i].src == g.ids[order[head - 1]] && g.ids[j] == g.edges[i].dst
    requires deg' == CountedDown(deg, j) && order' == Joined(order, deg', j)
    ensures Scanning(g, deg', order', head, i, j + 1)
    ensures |order'| <= |g.ids|
  {
    if deg'[j] == 0 {
      ScanJoin(g, deg, order, head, i, j, deg', order');
    } else {
      ScanHit(g, deg, order, head, i, j, deg');
    }
    ScanningBound(g, deg', order', head, i, j + 1);
  }

  /** The state between rounds: the chunks before head have been followed completely. */
  ghost predicate Settled(g: Graph, deg: seq<int>, order: seq<nat>, head: nat) {
    && |deg| >= |g.ids| && head <= |order|
    && IsSupplyOrder(g, order)
    && (forall k :: 0 <= k < |g.ids| ==> deg[k] == Remaining(g, order, head, 0, 0, k))
    && QueuedIffZero(g, deg, order)
  }

  lemma RoundStarts(g: Graph, deg: seq<int>, order: seq<nat>, head: nat)
    requires Settled(g, deg, order, head) && head < |order|
    ensures Scanning(g, deg, order, head + 1, 0, 0)
  {
  }

  lemma RoundEnds(g: Graph, deg: seq<int>, order: seq<nat>, head: nat)
    requires Scanning(g, deg, order, head, |g.edges|, 0)
    ensures Settled(g, deg, order, head)
  {
    DoneSnoc(g, order, head - 1);
    assert g.edges[..|g.edges|] == g.edges;
    var id := g.ids[order[head - 1]];
    forall k | 0 <= k < |g.ids| ensures deg[k] == Remaining(g, order, head, 0, 0, k) {
      assert CountedAt(g, deg, order, head, |g.edges|, 0, k);
      SupplyAdd(g.edges, Done(g, order, head - 1), id, g.ids[k]);
    }
  }

  lemma EdgeFollowed(g: Graph, deg: seq<int>, order: seq<nat>, head: nat, i: nat)
    requires i < |g.edges|
    requires if 0 < head <= |order| && order[head - 1] < |g.ids| && g.edges[i].src != g.ids[order[head - 1]]
             then Scanning(g, deg, order, head, i, 0) else Scanning(g, deg, order, head, i, |g.ids|)
    ensures Scanning(g, deg, order, head, i + 1, 0)
  {
    assert g.edges[..i + 1][..i] == g.edges[..i];
    var next := i + 1;
    forall k | 0 <= k < |g.ids| ensures CountedAt(g, deg, order, head, next, 0, k) {
      assert CountedAt(g, deg, order, head, i, if g.edges[i].src == g.ids[order[head - 1]] then |g.ids| else 0, k);
    }
  }

  /** Lower the counter of position j, and queue the position when it reaches zero. */
  method LowerCounter(inDegree: array<int>, queue: array<nat>, tail: nat, j: nat) returns (newTail: nat)
    requires j < inDegree.Length && tail <= queue.Length && (inDegree[j] == 1 ==> tail < queue.Length)
    modifies inDegree, queue
    ensures tail <= newTail <= queue.Length && queue[..tail] == old(queue[..tail])
    ensures inDegree[..] == CountedDown(old(inDegree[..]), j)
    ensures queue[..newTail] == Joined(old(queue[..tail]), inDegree[..], j)
  {
    newTail := tail;
    inDegree[j] := inDegree[j] - 1;
    if inDegree[j] == 0 {
      queue[newTail] := j;
      newTail := newTail + 1;
    }
  }

  /** The step for the plan that the arrays describe, in terms of the plan. */
  lemma PlanScanStep(plan: Plan, deg: seq<int>, order: seq<nat>, head: nat, i: nat, j: nat, deg': seq<int>,
                     order': seq<nat>)
    requires Scanning(plan.Graph(), deg, order, head, i, j) && i < |plan.edges| && j < |plan.chunks| && j < |deg|
    requires 0 < head <= |order| && order[head - 1] < |plan.chunks|
    requires plan.edges[i].src == plan.chunks[order[head - 1]].id && plan.chunks[j].id == plan.edges[i].dst
    requires deg' == CountedDown(deg, j) && order' == Joined(order, deg', j)
    ensures Scanning(plan.Graph(), deg', order', head, i, j + 1)
    ensures |order'| <= |plan.chunks|
  {
    ScanStep(plan.Graph(), deg, order, head, i, j, deg', order');
  }

  lemma PlanScanMiss(plan: Plan, deg: seq<int>, order: seq<nat>, head: nat, i: nat, j: nat)
    requires Scanning(plan.Graph(), deg, order, head, i, j) && i < |plan.edges| && j < |plan.chunks|
    requires 0 < head <= |order| && order[head - 1] < |plan.chunks|
    requires plan.edges[i].src == plan.chunks[order[head - 1]].id && plan.chunks[j].id != plan.edges[i].dst
    ensures Scanning(plan.Graph(), deg, order, head, i, j + 1)
  {
    ScanMiss(plan.Graph(), deg, order, head, i, j);
  }

  /** The arrays hold the counters and the queue. */
  ghost predicate Holds(inDegree: array<int>, queue: array<nat>, tail: nat, deg: seq<int>, order: seq<nat>)
    reads inDegree, queue
  {
    tail <= queue.Length && inDegree[..] == deg && queue[..tail] == order
  }

  /** Count position j down if it carries the id edge i leads to, and queue it when it reaches zero. */
  method CountDownOne(plan: Plan, inDegree: array<int>, queue: array<nat>, head: nat, tail: nat, i: nat, j: nat,
                      ghost deg: seq<int>, ghost order: seq<nat>)
    returns (newTail: nat, ghost deg': seq<int>, ghost order': seq<nat>)
    requires inDegree.Length == queue.Length == MAX_CHUNKS && |plan.chunks| <= MAX_CHUNKS
    requires i < |plan.edges| && j < |plan.chunks| && Holds(inDegree, queue, tail, deg, order)
    requires 0 < head <= |order| && order[head - 1] < |plan.chunks|
    requires plan.edges[i].src == plan.chunks[order[head - 1]].id
    requires Scanning(plan.Graph(), deg, order, head, i, j)
    modifies inDegree, queue
    ensures Holds(inDegree, queue, newTail, deg', order') && order <= order' && newTail <= |plan.chunks|
    ensures Scanning(plan.Graph(), deg', order', head, i, j + 1)
  {
    newTail, deg', order' := tail, deg, order;
    if plan.chunks[j].id == plan.edges[i].dst {
      deg' := CountedDown(deg, j);
      order' := Joined(order, deg', j);
      PlanScanStep(plan, deg, order, head, i, j, deg', order');
      newTail := LowerCounter(inDegree, queue, tail, j);
    } else {
      PlanScanMiss(plan, deg, order, head, i, j);
      ScanningBound(plan.Graph(), deg, order, head, i, j);
    }
  }

  /** Count down every position that carries the id edge i leads to. */
  method CountDownTargets(plan: Plan, inDegree: array<int>, queue: array<nat>, head: nat, tail: nat, i: nat,
                          ghost deg: seq<int>, ghost order: seq<nat>)
    returns (newTail: nat, ghost deg': seq<int>, ghost order': seq<nat>)
    requires inDegree.Length == queue.Length == MAX_CHUNKS && |plan.chunks| <= MAX_CHUNKS
    requires i < |plan.edges| && tail <= |plan.chunks| && Holds(inDegree, queue, tail, deg, order)
    requires 0 < head <= |order| && order[head - 1] < |plan.chunks|
    requires plan.edges[i].src == plan.chunks[order[head - 1]].id
    requires Scanning(plan.Graph(), deg, order, head, i, 0)
    modifies inDegree, queue
    ensures Holds(inDegree, queue, newTail, deg', order') && order <= order' && newTail <= |plan.chunks|
    ensures Scanning(plan.Graph(), deg', order', head, i, |plan.chunks|)
  {
    newTail, deg', order' := tail, deg, order;
    for j := 0 to |plan.chunks|
      invariant Holds(inDegree, queue, newTail, deg', order') && order <= order' && newTail <= |plan.chunks|
      invariant Scanning(plan.Graph(), deg', order', head, i, j)
    {
      newTail, deg', order' := CountDownOne(plan, inDegree, queue, head, newTail, i, j, deg', order');
    }
  }

  /** Follow every edge out of the chunk just dequeued; returns the new tail. */
  method ReleaseSuccessors(plan: Plan, inDegree: array<int>, queue: array<nat>, head: nat, tail: nat)
    returns (newTail: nat)
    requires inDegree.Length == queue.Length == MAX_CHUNKS && |plan.chunks| <= MAX_CHUNKS
    requires 0 < head <= tail <= |plan.chunks|
    requires Scanning(plan.Graph(), inDegree[..], queue[..tail], head, 0, 0)
    modifies inDegree, queue
    ensures tail <= newTail <= |plan.chunks|
    ensures Scanning(plan.Graph(), inDegree[..], queue[..newTail], head, |plan.edges|, 0)
  {
    ghost var g, start := plan.Graph(), queue[..tail];
    ghost var deg, order := inDegree[..], start;
    newTail := tail;
    var current := queue[head - 1];
    assert start[head - 1] == current;
    for i := 0 to |plan.edges|
      invariant Holds(inDegree, queue, newTail, deg, order) && start <= order && newTail <= |plan.chunks|
      invariant Scanning(g, deg, order, head, i, 0)
    {
      assert order[head - 1] == current;
      if plan.edges[i].src == plan.chunks[current].id {
        newTail, deg, order := CountDownTargets(plan, inDegree, queue, head, newTail, i, deg, order);
        assert order[head - 1] == current;
      }
      EdgeFollowed(g, deg, order, head, i);
    }
  }

  /** q lists the positions without in-edges among the first n. */
  ghost predicate RootsUpTo(deg: seq<int>, q: seq<nat>, n: nat)
    requires n <= |deg|
  {
    && (forall t :: 0 <= t < |q| ==> q[t] < n && deg[q[t]] == 0) && Distinct(q)
    && (forall j :: 0 <= j < n ==> (j in q <==> deg[j] <= 0))
  }

  lemma RootsNext(deg: seq<int>, q: seq<nat>, n: nat, q': seq<nat>)
    requires n < |deg| && deg[n] >= 0 && RootsUpTo(deg, q, n) && q' == if deg[n] == 0 then q + [n] else q
    ensures RootsUpTo(deg, q', n + 1) && |q'| <= |q| + 1
  {
  }

  lemma RootsSettled(g: Graph, deg: seq<int>, q: seq<nat>)
    requires |g.ids| <= |deg| && RootsUpTo(deg, q, |g.ids|)
    requires forall j :: 0 <= j < |g.ids| ==> deg[j] == InDegree(g.edges, g.ids[j])
    ensures Settled(g, deg, q, 0)
  {
    InitialQueue(g, q);
    forall k | 0 <= k < |g.ids| ensures deg[k] == Remaining(g, q, 0, 0, 0, k) {
      SupplyNone(g.edges, g.ids[k]);
    }
  }

  /** Queue the positions without in-edges, in order; returns the tail. */
  method QueueRoots(plan: Plan, inDegree: array<int>, queue: array<nat>) returns (tail: nat)
    requires inDegree.Length == MAX_CHUNKS && queue.Length == MAX_CHUNKS && |plan.chunks| <= MAX_CHUNKS
    requires forall j :: 0 <= j < |plan.chunks| ==> inDegree[j] == InDegree(plan.edges, plan.chunks[j].id)
    modifies queue
    ensures tail <= |plan.chunks|
    ensures Settled(plan.Graph(), inDegree[..], queue[..tail], 0)
  {
    ghost var deg := inDegree[..];
    tail := 0;
    for i := 0 to |plan.chunks|
      invariant 0 <= tail <= i && inDegree[..] == deg
      invariant RootsUpTo(deg, queue[..tail], i)
    {
      ghost var q := queue[..tail];
      if inDegree[i] == 0 {
        queue[tail] := i;
        tail := tail + 1;
        assert queue[..tail] == q + [i];
      }
      RootsNext(deg, q, i, queue[..tail]);
    }
    RootsSettled(plan.Graph(), deg, queue[..tail]);
  }

  /** Kahn's algorithm over positions, with an in-degree table and a queue of MAX_CHUNKS slots;
      returns how many positions were dequeued. Every array access is in range for every plan: no
      position is queued twice. */
  method ProcessQueue(plan: Plan) returns (processed: nat)
    requires |plan.chunks| <= MAX_CHUNKS
    ensures processed <= |plan.chunks|
    ensures processed == |plan.chunks| <==> Completable(plan.Graph())
  {
    ghost var g := plan.Graph();
    var inDegree := new int[MAX_CHUNKS](_ => 0);
    CountInDegrees(plan, inDegree);
    var queue := new nat[MAX_CHUNKS];
    var tail := QueueRoots(plan, inDegree, queue);
    var head := 0;
    processed := 0;
    while head < tail
      invariant head <= tail <= |plan.chunks|
      invariant processed == head
      invariant Settled(g, inDegree[..], queue[..tail], head)
      decreases |plan.chunks| - head
    {
      RoundStarts(g, inDegree[..], queue[..tail], head);
      head := head + 1;
      processed := processed + 1;
      tail := ReleaseSuccessors(plan, inDegree, queue, head, tail);
      RoundEnds(g, inDegree[..], queue[..tail], head);
    }
    AllFollowed(g, inDegree[..], queue[..tail]);
  }

  /** The topology check: exact for every plan in terms of completion, and in terms of rankings for
      exactly those ids that are distinct or all the same. It never turns away a plan that can be
      ranked, but with a repeated and another id it lets a plan with a cycle through. */
  method VerifyPlanTopologyIsDag(plan: Plan) returns (ok: bool)
    requires |plan.chunks| <= MAX_CHUNKS
    ensures ok <==> plan.isValid && plan.chunks != [] && Completable(plan.Graph())
    ensures Distinct(plan.Graph().ids) || AllEqual(plan.Graph().ids) ==>
              (ok <==> plan.isValid && plan.chunks != [] && Rankable(plan.Graph()))
    ensures plan.isValid && plan.chunks != [] && Rankable(plan.Graph()) ==> ok
    ensures plan.isValid && Overpaid(plan.Graph()) ==> ok && !Rankable(plan.Graph())
  {
    CompletableMeaning(plan.Graph());
    OverpaidIsAccepted(plan.Graph());
    if !plan.isValid || |plan.chunks| == 0 {
      return false;
    }
    var processed := ProcessQueue(plan);
    ok := processed == |plan.chunks|;
  }

  lemma OverpaidIsAccepted(g: Graph)
    ensures Overpaid(g) ==> g.ids != [] && Completable(g) && !Rankable(g)
  {
    if Overpaid(g) {
      RepeatedIdCounterexample(g);
    }
  }

  /** For all ids of a plan that are neither distinct nor all the same there is a valid plan over them
      that the check accepts although it has a cycle. */
  lemma CyclicPlanAccepted(chunks: seq<ChunkNode>) returns (plan: Plan)
    requires var ids := Plan(chunks, [], true).Graph().ids; !Distinct(ids) && !AllEqual(ids)
    ensures plan.isValid && plan.chunks == chunks && |plan.edges| == 2 && Overpaid(plan.Graph())
    ensures exists k :: 0 <= k < |chunks| && Edge(chunks[k].id, chunks[k].id) in plan.edges
  {
    var ids := Plan(chunks, [], true).Graph().ids;
    var i, j, k := MixedExists(ids);
    plan := Plan(chunks, LoopEdges(ids[i], ids[k]), true);
    assert plan.Graph().ids == ids;
    assert Mixed(plan.Graph().ids, i, j, k);
    assert plan.edges[1] == Edge(chunks[k].id, chunks[k].id);
  }

  // ----- Planning strategies -----

  datatype StrategyType = IndependentBatch | SequentialPipeline | MapReduce | Unsupported

  /** A registered plan function: one of the two built-in ones, one supplied from outside, of which
      only its result for each workload is known, or a null pointer. */
  datatype PlanFunction = PlanBatch | PlanPipeline | External(result: Workload -> (bool, Plan)) | NoFunction

  datatype Registration = Registration(strategy: StrategyType, fn: PlanFunction)

  datatype Workload = Workload(
    strategy: StrategyType,
    totalInputSizeBytes: u64,
    computeIntensity: u64,
    isSplittable: bool,
    rawDataNode: u32)

  const PLAN_CHUNKS: nat := 4
  const BATCH_OVERHEAD_BYTES: nat := 1024 * 1024 * 64

  /** The chunks carry the mixer's ids for positions 0, 1, ... in order. */
  predicate NumberedBy(chunks: seq<ChunkNode>, baseHash: u64) {
    |chunks| <= MAX_CHUNKS && forall i :: 0 <= i < |chunks| ==> chunks[i].id == DeterministicChunkId(baseHash, i)
  }

  lemma NumberedIsDistinct(plan: Plan, baseHash: u64)
    requires NumberedBy(plan.chunks, baseHash)
    ensures Distinct(plan.Graph().ids)
  {
    forall i, j | 0 <= i < j < |plan.chunks| ensures plan.Graph().ids[i] != plan.Graph().ids[j] {
      ChunkIdsDiffer(baseHash, i, j);
    }
  }

  /** Each edge leads from the chunk at its own position to the next chunk. */
  predicate IsChain(plan: Plan) {
    && |plan.edges| < |plan.chunks|
    && forall i :: 0 <= i < |plan.edges| ==> plan.edges[i] == Edge(plan.chunks[i].id, plan.chunks[i + 1].id)
  }

  /** A chain over distinct ids is ranked by position. */
  lemma ChainIsRankable(plan: Plan)
    requires IsChain(plan) && Distinct(plan.Graph().ids)
    ensures Rankable(plan.Graph())
  {
    var g := plan.Graph();
    var rank: seq<nat> := seq(|g.ids|, i => i);
    forall e, j | e in g.edges && 0 <= j < |g.ids| && g.ids[j] == e.dst ensures exists k :: Below(g, rank, e, k, j) {
      var i :| 0 <= i < |g.edges| && g.edges[i] == e;
      assert g.ids[i + 1] == e.dst;
      assert j == i + 1;
      assert Below(g, rank, e, i, j);
    }
    assert IsRanking(g, rank);
  }

  /** A quarter of the input plus the fixed overhead. */
  function BatchMemory(totalInputSizeBytes: u64): u64 {
    (totalInputSizeBytes / PLAN_CHUNKS + BATCH_OVERHEAD_BYTES) % TWO_64
  }

  /** Beside the overhead of 64 MiB the four shares cover the input up to the remainder of the division;
      adding the overhead never wraps. */
  lemma BatchShare(total: u64)
    ensures var share := BatchMemory(total) - 67_108_864; total - 4 < 4 * share <= total
  {
    assert total / PLAN_CHUNKS + BATCH_OVERHEAD_BYTES < TWO_64;
  }

  /** The nodes take turns; four chunks land on four nodes. */
  function BatchNode(i: nat): (node: u32)
    requires i < PLAN_CHUNKS
    ensures node == i
  {
    i % 4
  }

  method PlanIndependentBatch(wl: Workload, baseHash: u64) returns (plan: Plan)
    ensures plan.isValid && |plan.chunks| == PLAN_CHUNKS && plan.edges == []
    ensures NumberedBy(plan.chunks, baseHash)
    ensures forall i :: 0 <= i < PLAN_CHUNKS ==>
              && plan.chunks[i].memoryDemandBytes == BatchMemory(wl.totalInputSizeBytes)
              && plan.chunks[i].cpuCoresDemand == wl.computeIntensity * 2 % TWO_64
              && plan.chunks[i].targetNode == i
              && (plan.chunks[i].dataLocality == 1.0 <==> wl.rawDataNode == i)
  {
    var chunks: seq<ChunkNode> := [];
    var memory, cores := BatchMemory(wl.totalInputSizeBytes), wl.computeIntensity * 2 % TWO_64;
    for i := 0 to PLAN_CHUNKS
      invariant |chunks| == i && NumberedBy(chunks, baseHash)
      invariant forall k :: 0 <= k < i ==>
                  && chunks[k].memoryDemandBytes == memory && chunks[k].cpuCoresDemand == cores
                  && chunks[k].targetNode == k && (chunks[k].dataLocality == 1.0 <==> wl.rawDataNode == k)
    {
      var node := BatchNode(i);
      chunks :=
          chunks + [ChunkNode(DeterministicChunkId(baseHash, i), memory, cores, node,
                              if node == wl.rawDataNode then 1.0 else 0.0)];
    }
    plan := Plan(chunks, [], true);
  }

  method PlanSequentialPipeline(wl: Workload, baseHash: u64) returns (plan: Plan)
    ensures plan.isValid && |plan.chunks| == PLAN_CHUNKS && |plan.edges| == PLAN_CHUNKS - 1
    ensures NumberedBy(plan.chunks, baseHash) && IsChain(plan)
    ensures forall c :: c in plan.chunks ==>
              && c.memoryDemandBytes == wl.totalInputSizeBytes / 2 && c.cpuCoresDemand == wl.computeIntensity
              && c.targetNode == wl.rawDataNode && c.dataLocality == 1.0
  {
    var chunks: seq<ChunkNode> := [];
    var stepMemory := wl.totalInputSizeBytes / 2;
    for i := 0 to PLAN_CHUNKS
      invariant |chunks| == i && NumberedBy(chunks, baseHash)
      invariant forall k :: 0 <= k < i ==>
                  chunks[k]
                      == ChunkNode(DeterministicChunkId(baseHash, k), stepMemory, wl.computeIntensity, wl.rawDataNode,
                                   1.0)
    {
      chunks :=
          chunks + [ChunkNode(DeterministicChunkId(baseHash, i), stepMemory, wl.computeIntensity, wl.rawDataNode, 1.0)];
    }
    var edges: seq<Edge> := [];
    for i := 0 to PLAN_CHUNKS - 1
      invariant |edges| == i
      invariant forall k :: 0 <= k < i ==> edges[k] == Edge(chunks[k].id, chunks[k + 1].id)
    {
      edges := edges + [Edge(chunks[i].id, chunks[i + 1].id)];
    }
    plan := Plan(chunks, edges, true);
  }

  /** The function of the first registration of the type, from i on, that carries one. */
  function ChosenFrom(registry: seq<Registration>, strategy: StrategyType, i: nat): (fn: PlanFunction)
    requires i <= |registry|
    ensures fn.NoFunction? <==> forall k :: i <= k < |registry| && registry[k].strategy == strategy ==>
        registry[k].fn.NoFunction?
    ensures !fn.NoFunction? ==>
              exists k :: i <= k < |registry| && registry[k].strategy == strategy && registry[k].fn == fn
                          && forall m :: i <= m < k && registry[m].strategy == strategy ==> registry[m].fn.NoFunction?
    decreases |registry| - i
  {
    if i == |registry| then NoFunction
    else if registry[i].strategy == strategy && !registry[i].fn.NoFunction? then registry[i].fn
    else ChosenFrom(registry, strategy, i + 1)
  }

  method FindStrategy(registry: seq<Registration>, strategy: StrategyType) returns (fn: PlanFunction)
    ensures fn == ChosenFrom(registry, strategy, 0)
  {
    for i := 0 to |registry|
      invariant ChosenFrom(registry, strategy, i) == ChosenFrom(registry, strategy, 0)
    {
      if registry[i].strategy == strategy && !registry[i].fn.NoFunction? {
        return registry[i].fn;
      }
    }
    fn := NoFunction;
  }

  /** What the two built-in functions produce is what the topology check accepts, for every base hash. */
  ghost predicate Acceptable(plan: Plan) {
    && plan.isValid && plan.chunks != [] && |plan.chunks| <= MAX_CHUNKS && |plan.edges| <= MAX_EDGES
    && Distinct(plan.Graph().ids) && Rankable(plan.Graph())
  }

  /** A workload that may not be split, or whose strategy has no function, leaves an empty invalid plan,
      which the topology check rejects. A built-in function always succeeds with an acceptable plan. A
      function from outside has the last word on its plan and on success; that plan need not be
      acceptable, which is what the topology check is for. */
  method GenerateChunkGraph(registry: seq<Registration>, wl: Workload, baseHash: u64) returns (ok: bool, plan: Plan)
    ensures var fn := if wl.isSplittable then ChosenFrom(registry, wl.strategy, 0) else NoFunction;
            match fn
            case NoFunction => !ok && plan == Plan([], [], false)
            case External(result) => (ok, plan) == result(wl)
            case PlanBatch => ok && Acceptable(plan) && NumberedBy(plan.chunks, baseHash) && plan.edges == []
            case PlanPipeline => ok && Acceptable(plan) && NumberedBy(plan.chunks, baseHash) && IsChain(plan)
  {
    plan := Plan([], [], false);
    if !wl.isSplittable {
      return false, plan;
    }
    var fn := FindStrategy(registry, wl.strategy);
    match fn {
      case NoFunction =>
        return false, plan;
      case External(result) =>
        var (outcome, produced) := result(wl);
        return outcome, produced;
      case PlanBatch =>
        plan := PlanIndependentBatch(wl, baseHash);
      case PlanPipeline =>
        plan := PlanSequentialPipeline(wl, baseHash);
    }
    ok := true;
    NumberedIsDistinct(plan, baseHash);
    ChainIsRankable(plan);
  }
}
