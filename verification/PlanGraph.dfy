/** Dependency graphs of chunk plans and the topology check (master/src/chunk_planner.c).

The check runs Kahn's algorithm over chunk positions but matches edges by chunk id.
Its answer is therefore described first for every plan, in terms of how many in-edges of a
chunk the already queued chunks account for ("supply"), and then in terms of an ordinary ranking
of the graph, which is possible for exactly those ids that are distinct or all the same.
 */
module PlanGraph {
  import opened Counting
  import opened MachineInts

  type ChunkId = u64

  const MAX_CHUNKS: nat := 64
  const MAX_EDGES: nat := 128

  datatype Edge = Edge(src: ChunkId, dst: ChunkId)

  /** The ids of the chunks, by position, and the dependency edges between ids. */
  datatype Graph = Graph(ids: seq<ChunkId>, edges: seq<Edge>)

  // ----- Rankings: what "the plan is a DAG" means -----

  /** Position k holds the source of e and ranks strictly below position j. */
  ghost predicate Below(g: Graph, rank: seq<nat>, e: Edge, k: nat, j: nat)
    requires |rank| == |g.ids| && j < |g.ids|
  {
    k < |g.ids| && g.ids[k] == e.src && rank[k] < rank[j]
  }

  /** Every edge into a plan chunk comes from a plan chunk of strictly smaller rank. */
  ghost predicate IsRanking(g: Graph, rank: seq<nat>) {
    && |rank| == |g.ids|
    && forall e, j :: e in g.edges && 0 <= j < |g.ids| && g.ids[j] == e.dst ==> exists k :: Below(g, rank, e, k, j)
  }

  ghost predicate Rankable(g: Graph) {
    exists rank :: IsRanking(g, rank)
  }

  // ----- Edge counts -----

  function InDegree(edges: seq<Edge>, dst: ChunkId): nat {
    if edges == [] then 0 else
      var e := edges[|edges| - 1];
      InDegree(edges[..|edges| - 1], dst) + if e.dst == dst then 1 else 0
  }

  function EdgeCount(edges: seq<Edge>, src: ChunkId, dst: ChunkId): nat {
    if edges == [] then 0 else
      var e := edges[|edges| - 1];
      EdgeCount(edges[..|edges| - 1], src, dst) + if e.src == src && e.dst == dst then 1 else 0
  }

  /** How often the edges into dst have been paid for by the finished chunk ids in done. */
  ghost function Supply(edges: seq<Edge>, done: multiset<ChunkId>, dst: ChunkId): nat {
    if edges == [] then 0 else
      var e := edges[|edges| - 1];
      Supply(edges[..|edges| - 1], done, dst) + if e.dst == dst then done[e.src] else 0
  }

  lemma {:induction false} SupplyAdd(edges: seq<Edge>, done: multiset<ChunkId>, src: ChunkId, dst: ChunkId)
    ensures Supply(edges, done + multiset{src}, dst) == Supply(edges, done, dst) + EdgeCount(edges, src, dst)
  {
    if edges != [] {
      var e := edges[|edges| - 1];
      assert (done + multiset{src})[e.src] == done[e.src] + if e.src == src then 1 else 0;
      SupplyAdd(edges[..|edges| - 1], done, src, dst);
    }
  }

  lemma {:induction false} SupplyMonotone(edges: seq<Edge>, a: multiset<ChunkId>, b: multiset<ChunkId>, dst: ChunkId)
    requires a <= b
    ensures Supply(edges, a, dst) <= Supply(edges, b, dst)
  {
    if edges != [] {
      SupplyMonotone(edges[..|edges| - 1], a, b, dst);
    }
  }

  lemma {:induction false} SupplyNone(edges: seq<Edge>, dst: ChunkId)
    ensures Supply(edges, multiset{}, dst) == 0
  {
    if edges != [] {
      SupplyNone(edges[..|edges| - 1], dst);
    }
  }

  /** If every in-edge of dst has a finished source, the in-degree is fully supplied. */
  lemma {:induction false} CoveredIsSupplied(edges: seq<Edge>, done: multiset<ChunkId>, dst: ChunkId)
    requires forall e :: e in edges && e.dst == dst ==> e.src in done
    ensures InDegree(edges, dst) <= Supply(edges, done, dst)
  {
    if edges != [] {
      var e := edges[|edges| - 1];
      assert e in edges;
      CoveredIsSupplied(edges[..|edges| - 1], done, dst);
    }
  }

  /** When no id finished twice, full supply means that every in-edge has a finished source. */
  lemma {:induction false} SuppliedIsCovered(edges: seq<Edge>, done: multiset<ChunkId>, dst: ChunkId)
    requires forall id :: done[id] <= 1
    ensures Supply(edges, done, dst) <= InDegree(edges, dst)
    ensures Supply(edges, done, dst) == InDegree(edges, dst) ==>
              forall e :: e in edges && e.dst == dst ==> e.src in done
  {
    if edges != [] {
      var e := edges[|edges| - 1];
      SuppliedIsCovered(edges[..|edges| - 1], done, dst);
      assert done[e.src] <= 1;
      assert edges == edges[..|edges| - 1] + [e];
    }
  }

  // ----- Completion orders over positions -----

  /** A list of distinct positions of the graph. */
  ghost predicate Positions(g: Graph, order: seq<nat>) {
    (forall t :: 0 <= t < |order| ==> order[t] < |g.ids|) && Distinct(order)
  }

  /** The ids found at the positions listed in order. */
  function IdsAt(g: Graph, order: seq<nat>): (r: seq<ChunkId>)
    requires forall t :: 0 <= t < |order| ==> order[t] < |g.ids|
    ensures |r| == |order|
    ensures forall t :: 0 <= t < |order| ==> r[t] == g.ids[order[t]]
  {
    seq(|order|, t requires 0 <= t < |order| => g.ids[order[t]])
  }

  /** The ids of the first m listed positions. */
  ghost function Done(g: Graph, order: seq<nat>, m: nat): multiset<ChunkId>
    requires Positions(g, order) && m <= |order|
  {
    multiset(IdsAt(g, order)[..m])
  }

  /** The in-edges of position j are paid for by the first m listed positions. */
  ghost predicate Supplied(g: Graph, order: seq<nat>, m: nat, j: nat)
    requires Positions(g, order) && m <= |order| && j < |g.ids|
  {
    InDegree(g.edges, g.ids[j]) <= Supply(g.edges, Done(g, order, m), g.ids[j])
  }

  /** Each listed position is fully supplied by the positions before it. */
  ghost predicate IsSupplyOrder(g: Graph, order: seq<nat>) {
    && Positions(g, order)
    && forall t {:trigger Supplied(g, order, t, order[t])} :: 0 <= t < |order| ==> Supplied(g, order, t, order[t])
  }

  /** Nothing further can be appended to the order. */
  ghost predicate Saturated(g: Graph, order: seq<nat>)
    requires Positions(g, order)
  {
    forall j :: 0 <= j < |g.ids| && j !in order ==> !Supplied(g, order, |order|, j)
  }

  /** All chunks can be finished in some supply order. */
  ghost predicate Completable(g: Graph) {
    exists order :: IsSupplyOrder(g, order) && |order| == |g.ids|
  }

  // ----- Facts about position lists -----

  lemma PositionsBound(g: Graph, order: seq<nat>)
    requires Positions(g, order)
    ensures |order| <= |g.ids|
    ensures |order| == |g.ids| <==> forall j :: 0 <= j < |g.ids| ==> j in order
  {
    DistinctFills(order, |g.ids|);
  }

  lemma DoneSnoc(g: Graph, order: seq<nat>, m: nat)
    requires Positions(g, order) && m < |order|
    ensures Done(g, order, m + 1) == Done(g, order, m) + multiset{g.ids[order[m]]}
  {
    assert IdsAt(g, order)[..m + 1] == IdsAt(g, order)[..m] + [g.ids[order[m]]];
  }

  lemma DoneGrows(g: Graph, order: seq<nat>, m: nat)
    requires Positions(g, order) && m <= |order|
    ensures Done(g, order, m) <= Done(g, order, |order|)
  {
    var ids := IdsAt(g, order);
    assert ids[..|order|] == ids[..m] + ids[m..];
  }

  lemma DonePrefix(g: Graph, order: seq<nat>, longer: seq<nat>, m: nat)
    requires Positions(g, order) && Positions(g, longer) && order <= longer && m <= |order|
    ensures Done(g, longer, m) == Done(g, order, m)
  {
    assert IdsAt(g, longer)[..m] == IdsAt(g, order)[..m];
  }

  lemma RestPositions(g: Graph, b: seq<nat>, p: nat, rest: seq<nat>)
    requires Positions(g, b) && p < |b| && rest == b[..p] + b[p + 1..]
    ensures Positions(g, rest)
    ensures forall j :: j in b && j != b[p] ==> j in rest
  {
    assert forall q :: 0 <= q < |rest| ==> rest[q] == b[if q < p then q else q + 1];
    forall j | j in b && j != b[p] ensures j in rest {
      var q :| 0 <= q < |b| && b[q] == j;
      assert rest[if q < p then q else q - 1] == j;
    }
  }

  lemma RestDone(g: Graph, b: seq<nat>, p: nat, rest: seq<nat>)
    requires Positions(g, b) && Positions(g, rest) && p < |b| && rest == b[..p] + b[p + 1..]
    ensures Done(g, b, |b|) == Done(g, rest, |rest|) + multiset{g.ids[b[p]]}
  {
    var ids := IdsAt(g, b);
    assert ids == ids[..p] + [g.ids[b[p]]] + ids[p + 1..];
    assert IdsAt(g, rest) == ids[..p] + ids[p + 1..];
    assert ids[..|b|] == ids && IdsAt(g, rest)[..|rest|] == IdsAt(g, rest);
  }

  /** Taking one place out of a position list removes exactly that position and its id. */
  lemma WithoutPlace(g: Graph, b: seq<nat>, p: nat) returns (rest: seq<nat>)
    requires Positions(g, b) && p < |b|
    ensures Positions(g, rest)
    ensures forall j :: j in b && j != b[p] ==> j in rest
    ensures Done(g, b, |b|) == Done(g, rest, |rest|) + multiset{g.ids[b[p]]}
  {
    rest := b[..p] + b[p + 1..];
    RestPositions(g, b, p, rest);
    RestDone(g, b, p, rest);
  }

  /** The first m positions of one list contribute no more ids than any list containing them. */
  lemma {:induction false} DoneIncluded(g: Graph, a: seq<nat>, m: nat, b: seq<nat>)
    requires Positions(g, a) && Positions(g, b) && m <= |a|
    requires forall t :: 0 <= t < m ==> a[t] in b
    ensures Done(g, a, m) <= Done(g, b, |b|)
    decreases m
  {
    if m > 0 {
      assert a[m - 1] in b;
      var p :| 0 <= p < |b| && b[p] == a[m - 1];
      var rest := WithoutPlace(g, b, p);
      DoneIncluded(g, a, m - 1, rest);
      DoneSnoc(g, a, m - 1);
    }
  }

  /** With distinct ids no id is done twice. */
  lemma {:induction false} DistinctDone(g: Graph, order: seq<nat>, m: nat, id: ChunkId)
    requires Distinct(g.ids) && Positions(g, order) && m <= |order|
    ensures Done(g, order, m)[id] <= 1
    ensures id in Done(g, order, m) ==> exists t :: 0 <= t < m && g.ids[order[t]] == id
    decreases m
  {
    if m > 0 {
      DistinctDone(g, order, m - 1, id);
      DoneSnoc(g, order, m - 1);
    }
  }

  // ----- Supply orders against rankings -----

  /** A saturated list holds every position that any supply order can reach. */
  lemma {:induction false} SaturatedCoversOrder(g: Graph, q: seq<nat>, order: seq<nat>, t: nat)
    requires Positions(g, q) && Saturated(g, q)
    requires IsSupplyOrder(g, order) && t <= |order|
    ensures forall s :: 0 <= s < t ==> order[s] in q
    decreases t
  {
    if t > 0 {
      SaturatedCoversOrder(g, q, order, t - 1);
      var j := order[t - 1];
      DoneIncluded(g, order, t - 1, q);
      SupplyMonotone(g.edges, Done(g, order, t - 1), Done(g, q, |q|), g.ids[j]);
      assert Supplied(g, order, t - 1, j);
    }
  }

  /** A saturated list of a rankable graph holds every position (whatever the ids are). */
  lemma {:induction false} SaturatedCoversRanked(g: Graph, q: seq<nat>, rank: seq<nat>, j: nat)
    requires Positions(g, q) && Saturated(g, q)
    requires IsRanking(g, rank) && j < |g.ids|
    ensures j in q
    decreases rank[j]
  {
    var done := Done(g, q, |q|);
    forall e | e in g.edges && e.dst == g.ids[j] ensures e.src in done {
      var k :| Below(g, rank, e, k, j);
      SaturatedCoversRanked(g, q, rank, k);
      var t :| 0 <= t < |q| && q[t] == k;
      assert IdsAt(g, q)[..|q|][t] == e.src;
    }
    CoveredIsSupplied(g.edges, done, g.ids[j]);
  }

  /** Some supply order cannot be extended any further. */
  lemma {:induction false} SaturatedOrderExists(g: Graph, order: seq<nat>) returns (q: seq<nat>)
    requires IsSupplyOrder(g, order)
    ensures IsSupplyOrder(g, q) && Saturated(g, q)
    decreases |g.ids| - |order|
  {
    PositionsBound(g, order);
    if Saturated(g, order) {
      q := order;
    } else {
      var j: nat :| j < |g.ids| && j !in order && Supplied(g, order, |order|, j);
      SupplyOrderSnoc(g, order, j, order + [j]);
      PositionsBound(g, order + [j]);
      q := SaturatedOrderExists(g, order + [j]);
    }
  }

  lemma SupplyOrderSnoc(g: Graph, order: seq<nat>, j: nat, longer: seq<nat>)
    requires IsSupplyOrder(g, order) && j < |g.ids| && j !in order && Supplied(g, order, |order|, j)
    requires longer == order + [j]
    ensures IsSupplyOrder(g, longer)
  {
    assert Positions(g, longer);
    forall t | 0 <= t < |longer| ensures Supplied(g, longer, t, longer[t]) {
      DonePrefix(g, order, longer, t);
      if t < |order| {
        assert Supplied(g, order, t, order[t]);
      }
    }
  }

  /** With distinct ids the places in a complete supply order rank the graph. */
  lemma FullOrderRanks(g: Graph, order: seq<nat>)
    requires Distinct(g.ids) && IsSupplyOrder(g, order) && |order| == |g.ids|
    ensures exists rank :: IsRanking(g, rank)
  {
    PositionsBound(g, order);
    var rank := seq(|g.ids|, j requires 0 <= j < |g.ids| => PlaceOf(order, j));
    forall e, j | e in g.edges && 0 <= j < |g.ids| && g.ids[j] == e.dst ensures exists k :: Below(g, rank, e, k, j) {
      var s := EarlierSource(g, order, PlaceOf(order, j), e);
      assert PlaceOf(order, order[s]) == s;
      assert Below(g, rank, e, order[s], j);
    }
    assert IsRanking(g, rank);
  }

  /** The source of an edge into a supplied position stands earlier in the order. */
  lemma EarlierSource(g: Graph, order: seq<nat>, t: nat, e: Edge) returns (s: nat)
    requires Distinct(g.ids) && IsSupplyOrder(g, order) && t < |order|
    requires e in g.edges && e.dst == g.ids[order[t]]
    ensures s < t && g.ids[order[s]] == e.src
  {
    var done := Done(g, order, t);
    assert Supplied(g, order, t, order[t]);
    forall id ensures done[id] <= 1 {
      DistinctDone(g, order, t, id);
    }
    SuppliedIsCovered(g.edges, done, e.dst);
    DistinctDone(g, order, t, e.src);
    s :| 0 <= s < t && g.ids[order[s]] == e.src;
  }

  ghost function PlaceOf(order: seq<nat>, j: nat): (t: nat)
    requires j in order
    ensures t < |order| && order[t] == j
  {
    var t :| 0 <= t < |order| && order[t] == j;
    t
  }

  /** Any graph that can be ranked can be completed, even when ids repeat. */
  lemma RankableIsCompletable(g: Graph)
    requires Rankable(g)
    ensures Completable(g)
  {
    var rank :| IsRanking(g, rank);
    var q := SaturatedOrderExists(g, []);
    forall j | 0 <= j < |g.ids| ensures j in q {
      SaturatedCoversRanked(g, q, rank, j);
    }
    PositionsBound(g, q);
  }

  /** For distinct ids, completability is exactly the existence of a ranking. */
  lemma DistinctCompletableIffRankable(g: Graph)
    requires Distinct(g.ids)
    ensures Completable(g) <==> Rankable(g)
  {
    if Completable(g) {
      var order :| IsSupplyOrder(g, order) && |order| == |g.ids|;
      FullOrderRanks(g, order);
    }
    if Rankable(g) {
      RankableIsCompletable(g);
    }
  }

  /** What completability says about rankings: nothing rankable is turned away, and with distinct
      ids, or only one id, nothing else is let through. */
  lemma CompletableMeaning(g: Graph)
    ensures Rankable(g) ==> Completable(g)
    ensures Distinct(g.ids) || AllEqual(g.ids) ==> (Completable(g) <==> Rankable(g))
  {
    if Rankable(g) {
      RankableIsCompletable(g);
    }
    if Distinct(g.ids) {
      DistinctCompletableIffRankable(g);
    } else if AllEqual(g.ids) && Completable(g) {
      EqualCompletableIsRankable(g);
    }
  }

  // ----- For which ids the check is exact -----

  ghost predicate AllEqual(ids: seq<ChunkId>) {
    forall i, j :: 0 <= i < j < |ids| ==> ids[i] == ids[j]
  }

  /** Some id is repeated, and some other id occurs. */
  ghost predicate Mixed(ids: seq<ChunkId>, i: int, j: int, k: int) {
    0 <= i < j < |ids| && 0 <= k < |ids| && ids[i] == ids[j] && ids[k] != ids[i]
  }

  lemma MixedExists(ids: seq<ChunkId>) returns (i: nat, j: nat, k: nat)
    requires !Distinct(ids) && !AllEqual(ids)
    ensures Mixed(ids, i, j, k)
  {
    i, j :| 0 <= i < j < |ids| && ids[i] == ids[j];
    var p, q :| 0 <= p < q < |ids| && ids[p] != ids[q];
    k := if ids[p] != ids[i] then p else q;
  }

  /** When all ids are the same, a graph can only be completed if no edge leads into it. */
  lemma EqualCompletableIsRankable(g: Graph)
    requires AllEqual(g.ids) && Completable(g)
    ensures Rankable(g)
  {
    var rank: seq<nat> := seq(|g.ids|, _ => 0);
    if |g.ids| > 0 {
      var order :| IsSupplyOrder(g, order) && |order| == |g.ids|;
      assert Supplied(g, order, 0, order[0]);
      assert IdsAt(g, order)[..0] == [];
      SupplyNone(g.edges, g.ids[order[0]]);
      forall e, j | e in g.edges && 0 <= j < |g.ids| && g.ids[j] == e.dst ensures false {
        assert g.ids[order[0]] == g.ids[j];
        EdgeIsCounted(g.edges, e);
      }
    }
    assert IsRanking(g, rank);
  }

  lemma {:induction false} EdgeIsCounted(edges: seq<Edge>, e: Edge)
    requires e in edges
    ensures InDegree(edges, e.dst) > 0
  {
    var last := edges[|edges| - 1];
    if e != last {
      assert edges == edges[..|edges| - 1] + [last];
      EdgeIsCounted(edges[..|edges| - 1], e);
    }
  }

  /** An edge from a to b, and b waiting for itself. */
  function LoopEdges(a: ChunkId, b: ChunkId): seq<Edge> { [Edge(a, b), Edge(b, b)] }

  lemma LoopCounts(a: ChunkId, b: ChunkId, id: ChunkId, done: multiset<ChunkId>)
    requires a != b
    ensures InDegree(LoopEdges(a, b), id) == if id == b then 2 else 0
    ensures Supply(LoopEdges(a, b), done, b) == done[a] + done[b]
  {
    var one := LoopEdges(a, b)[..1];
    assert one == [Edge(a, b)] && one[..0] == [];
    assert InDegree(one, id) == if id == b then 1 else 0;
    assert Supply(one, done, b) == done[a];
  }

  lemma TwoDone(g: Graph, i: nat, j: nat)
    requires i < j < |g.ids| && g.ids[i] == g.ids[j]
    ensures Positions(g, [i, j]) && Done(g, [i, j], 2)[g.ids[i]] == 2
  {
    assert IdsAt(g, [i, j])[..2] == [g.ids[i], g.ids[i]];
  }

  /** The repeated id pays twice for its edge, and so also for the edge of the cycle. */
  lemma LoopCompletes(g: Graph, i: nat, j: nat, k: nat)
    requires Mixed(g.ids, i, j, k) && g.edges == LoopEdges(g.ids[i], g.ids[k])
    ensures Completable(g)
  {
    var a, b := g.ids[i], g.ids[k];
    var q := SaturatedOrderExists(g, []);
    var done := Done(g, q, |q|);
    forall p | 0 <= p < |g.ids| && g.ids[p] != b ensures p in q {
      LoopCounts(a, b, g.ids[p], done);
    }
    TwoDone(g, i, j);
    DoneIncluded(g, [i, j], 2, q);
    LoopCounts(a, b, b, done);
    forall p | 0 <= p < |g.ids| ensures p in q {
      if g.ids[p] == b && p !in q {
        assert Supplied(g, q, |q|, p);
      }
    }
    PositionsBound(g, q);
  }

  /** A chunk waiting for itself has no rank. */
  lemma {:induction false} SelfLoopHasNoRank(g: Graph, rank: seq<nat>, j: nat)
    requires |rank| == |g.ids| && j < |g.ids| && Edge(g.ids[j], g.ids[j]) in g.edges
    ensures !IsRanking(g, rank)
    decreases rank[j]
  {
    if IsRanking(g, rank) {
      var k :| Below(g, rank, Edge(g.ids[j], g.ids[j]), k, j);
      SelfLoopHasNoRank(g, rank, k);
    }
  }

  lemma SelfLoopNotRankable(g: Graph, j: nat)
    requires j < |g.ids| && Edge(g.ids[j], g.ids[j]) in g.edges
    ensures !Rankable(g)
  {
    if Rankable(g) {
      var rank :| IsRanking(g, rank);
      SelfLoopHasNoRank(g, rank, j);
    }
  }

  /** A plan with a cycle that the check accepts: b waits for itself, and the repeated a pays for it. */
  ghost predicate Overpaid(g: Graph) {
    exists i, j, k :: Mixed(g.ids, i, j, k) && g.edges == LoopEdges(g.ids[i], g.ids[k])
  }

  /** Whatever the ids are, one repeated and another one suffice for such a plan. */
  lemma RepeatedIdCounterexample(g: Graph)
    requires Overpaid(g)
    ensures Completable(g) && !Rankable(g)
  {
    var i, j, k :| Mixed(g.ids, i, j, k) && g.edges == LoopEdges(g.ids[i], g.ids[k]);
    LoopCompletes(g, i, j, k);
    assert g.edges[1] == Edge(g.ids[k], g.ids[k]);
    SelfLoopNotRankable(g, k);
  }

  ghost predicate ExactFor(ids: seq<ChunkId>) {
    forall edges :: Completable(Graph(ids, edges)) <==> Rankable(Graph(ids, edges))
  }

  /** The check is exact for all edges between the given ids if and only if the ids are distinct or all
      the same. */
  lemma ExactIff(ids: seq<ChunkId>)
    ensures ExactFor(ids) <==> Distinct(ids) || AllEqual(ids)
  {
    if Distinct(ids) || AllEqual(ids) {
      forall edges ensures Completable(Graph(ids, edges)) <==> Rankable(Graph(ids, edges)) {
        CompletableMeaning(Graph(ids, edges));
      }
    } else {
      var i, j, k := MixedExists(ids);
      var g := Graph(ids, LoopEdges(ids[i], ids[k]));
      RepeatedIdCounterexample(g);
    }
  }
}
