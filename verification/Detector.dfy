/**
 The negative-cycle detector as code: vectors updated in place, a queue loop that
 both scans share, and the two entry points.
 */
module Detector {
  import opened Wrappers
  import opened PriceGraph
  import opened Predecessors
  import opened CycleExtraction
  import opened CycleSearch
  import opened Scans
  import opened Detection
  import StableSort

  ghost function View(dist: array<Option<real>>, pred: array<Option<nat>>, inQueue: array<bool>, count: array<nat>,
                      queue: seq<nat>, visited: array<bool>, cycles: seq<DetectedCycle>): State
    reads dist, pred, inQueue, count, visited
  {
    State(dist[..], pred[..], inQueue[..], count[..], queue, visited[..], cycles)
  }

  /** Marks the vertices of a reported cycle. */
  method MarkVisited(visited: array<bool>, path: seq<nat>)
    requires forall i | 0 <= i < |path| :: path[i] < visited.Length
    modifies visited
    ensures visited[..] == Mark(old(visited[..]), path)
    ensures forall v | 0 <= v < visited.Length :: visited[v] <==> old(visited[v]) || v in path
  {
    for i := 0 to |path|
      invariant forall v | 0 <= v < visited.Length :: visited[v] == (old(visited[v]) || v in path[..i])
    {
      visited[path[i]] := true;
      assert path[..i + 1] == path[..i] + [path[i]];
    }
    assert path[..|path|] == path;
  }

  /** The body of the edge loop. */
  method RelaxEdge(g: Graph, maxHops: nat, dist: array<Option<real>>, pred: array<Option<nat>>, inQueue: array<bool>,
                   count: array<nat>, queue: seq<nat>, visited: array<bool>, cycles: seq<DetectedCycle>,
                   u: nat, e: Edge)
    returns (queue': seq<nat>, cycles': seq<DetectedCycle>)
    requires Shape(g, View(dist, pred, inQueue, count, queue, visited, cycles)) && u < |g| && e.to < |g|
    requires inQueue != visited
    modifies dist, pred, inQueue, count, visited
    ensures View(dist, pred, inQueue, count, queue', visited, cycles')
         == Relax(g, maxHops, old(View(dist, pred, inQueue, count, queue, visited, cycles)), u, e)
  {
    ghost var s := View(dist, pred, inQueue, count, queue, visited, cycles);
    queue', cycles' := queue, cycles;
    if e.filtered || !Improves(dist[..], u, e) {
      return;
    }
    var v := e.to;
    dist[v] := Via(dist[..], u, e);
    pred[v] := Some(u);
    count[v] := count[v] + 1;
    ghost var l := View(dist, pred, inQueue, count, queue, visited, cycles);
    assert l == Label(s, u, e);

    if count[v] >= |g| {
      if !visited[v] {
        var cycle := ExtractCycle(g, maxHops, v, pred[..]);
        if cycle.Some? {
          ExtractedIsCycle(g, maxHops, v, pred[..]);
          MarkVisited(visited, cycle.value.path);
          cycles' := cycles + [cycle.value];
        }
      }
      return;
    }
    if !inQueue[v] {
      queue' := if queue != [] && Less(dist[v], dist[queue[0]]) then [v] + queue else queue + [v];
      inQueue[v] := true;
    }
  }

  /** The edge loop of one vertex. */
  method RelaxEdges(g: Graph, maxHops: nat, dist: array<Option<real>>, pred: array<Option<nat>>, inQueue: array<bool>,
                    count: array<nat>, queue: seq<nat>, visited: array<bool>, cycles: seq<DetectedCycle>, u: nat)
    returns (queue': seq<nat>, cycles': seq<DetectedCycle>)
    requires Shape(g, View(dist, pred, inQueue, count, queue, visited, cycles)) && u < |g|
    requires inQueue != visited
    modifies dist, pred, inQueue, count, visited
    ensures View(dist, pred, inQueue, count, queue', visited, cycles')
         == RelaxFrom(g, maxHops, old(View(dist, pred, inQueue, count, queue, visited, cycles)), u, 0)
  {
    queue', cycles' := queue, cycles;
    ghost var goal := RelaxFrom(g, maxHops, View(dist, pred, inQueue, count, queue, visited, cycles), u, 0);
    for i := 0 to |g[u]|
      invariant Shape(g, View(dist, pred, inQueue, count, queue', visited, cycles'))
      invariant RelaxFrom(g, maxHops, View(dist, pred, inQueue, count, queue', visited, cycles'), u, i) == goal
    {
      queue', cycles' := RelaxEdge(g, maxHops, dist, pred, inQueue, count, queue', visited, cycles', u, g[u][i]);
    }
  }

  /** The queue loop, the same in both scans. */
  method RunQueue(bf: BellmanFord, g: Graph, clock: nat -> nat, dist: array<Option<real>>, pred: array<Option<nat>>,
                  inQueue: array<bool>, count: array<nat>, seeds: seq<nat>)
    returns (cycles: seq<DetectedCycle>)
    requires dist.Length == pred.Length == inQueue.Length == count.Length == |g|
    requires Shape(g, State(dist[..], pred[..], inQueue[..], count[..], seeds, seq(|g|, _ => false), []))
    modifies dist, pred, inQueue, count
    ensures cycles == StableSort.Sort(
      Search(g, bf.maxHops, bf.maxTimeUs, clock,
             old(State(dist[..], pred[..], inQueue[..], count[..], seeds, seq(|g|, _ => false), [])), 0).state.cycles,
      ByWeight)
  {
    var visited := new bool[|g|](_ => false);
    var queue := seeds;
    cycles := [];
    ghost var start := View(dist, pred, inQueue, count, queue, visited, cycles);
    assert start.visited == seq(|g|, _ => false);
    ghost var goal := Search(g, bf.maxHops, bf.maxTimeUs, clock, start, 0);
    var pops := 0;
    while queue != []
      invariant Shape(g, View(dist, pred, inQueue, count, queue, visited, cycles))
      invariant var s := View(dist, pred, inQueue, count, queue, visited, cycles);
                Search(g, bf.maxHops, bf.maxTimeUs, clock, s, pops) == goal
      decreases |queue| + Budget(count[..], |g|)
    {
      ghost var s := View(dist, pred, inQueue, count, queue, visited, cycles);
      var u := queue[0];
      queue := queue[1..];
      inQueue[u] := false;
      ghost var p := View(dist, pred, inQueue, count, queue, visited, cycles);
      assert p == Pop(s);
      if clock(pops) > bf.maxTimeUs {
        assert goal.state == p;
        break;
      }
      RelaxFromSpends(g, bf.maxHops, p, u, 0);
      queue, cycles := RelaxEdges(g, bf.maxHops, dist, pred, inQueue, count, queue, visited, cycles, u);
      pops := pops + 1;
    }
    assert cycles == goal.state.cycles;
    cycles := StableSort.Sort(cycles, ByWeight);
  }

  lemma StartsEqual(n: nat, queue: seq<nat>, dist: Dists, pred: Preds, inQueue: seq<bool>, count: seq<nat>)
    requires |dist| == |pred| == |inQueue| == |count| == n
    requires forall v | 0 <= v < n :: dist[v] == if v in queue then Some(0.0) else None
    requires forall v | 0 <= v < n :: pred[v] == None && inQueue[v] == (v in queue) && count[v] == 0
    ensures State(dist, pred, inQueue, count, queue, seq(n, _ => false), []) == SeededStart(n, queue)
  {
  }

  /** The vectors of the full scan: every vertex at distance zero and queued. */
  method SeedEverything(n: nat)
    returns (dist: array<Option<real>>, pred: array<Option<nat>>, inQueue: array<bool>, count: array<nat>,
             queue: seq<nat>)
    ensures fresh(dist) && fresh(pred) && fresh(inQueue) && fresh(count)
    ensures dist.Length == pred.Length == inQueue.Length == count.Length == n
    ensures State(dist[..], pred[..], inQueue[..], count[..], queue, seq(n, _ => false), [])
         == SeededStart(n, Everything(n))
  {
    dist := new Option<real>[n](_ => Some(0.0));
    pred := new Option<nat>[n](_ => None);
    inQueue := new bool[n](_ => false);
    count := new nat[n](_ => 0);
    queue := [];
    for i := 0 to n
      modifies inQueue
      invariant |queue| == i && forall j | 0 <= j < i :: queue[j] == j && inQueue[j]
    {
      queue := queue + [i];
      inQueue[i] := true;
    }
    assert queue == Everything(n);
    assert forall v | 0 <= v < n :: v in queue;
    StartsEqual(n, queue, dist[..], pred[..], inQueue[..], count[..]);
  }

  /** The vectors of the partial scan: the affected vertices that exist at distance zero and queued. */
  method SeedAffected(n: nat, affected: seq<nat>)
    returns (dist: array<Option<real>>, pred: array<Option<nat>>, inQueue: array<bool>, count: array<nat>,
             queue: seq<nat>)
    ensures fresh(dist) && fresh(pred) && fresh(inQueue) && fresh(count)
    ensures dist.Length == pred.Length == inQueue.Length == count.Length == n
    ensures State(dist[..], pred[..], inQueue[..], count[..], queue, seq(n, _ => false), [])
         == SeededStart(n, ValidSeeds(affected, n))
  {
    dist := new Option<real>[n](_ => None);
    pred := new Option<nat>[n](_ => None);
    inQueue := new bool[n](_ => false);
    count := new nat[n](_ => 0);
    queue := [];
    for i := 0 to |affected|
      modifies dist, inQueue
      invariant queue == ValidSeeds(affected[..i], n)
      invariant forall v | 0 <= v < n :: inQueue[v] == (v in queue)
      invariant forall v | 0 <= v < n :: dist[v] == if v in queue then Some(0.0) else None
    {
      assert affected[..i + 1][..i] == affected[..i];
      var v := affected[i];
      ghost var before := queue;
      if v < n {
        dist[v] := Some(0.0);
        queue := queue + [v];
        inQueue[v] := true;
        assert forall x :: x in queue <==> x in before || x == v;
      }
    }
    assert affected[..|affected|] == affected;
    StartsEqual(n, queue, dist[..], pred[..], inQueue[..], count[..]);
  }

  lemma NoVertexNoSeed(affected: seq<nat>)
    ensures ValidSeeds(affected, 0) == []
  {
  }

  lemma NothingToScan(bf: BellmanFord, g: Graph, clock: nat -> nat, seeds: seq<nat>)
    requires WellFormed(g) && seeds == []
    ensures StableSort.Sort(Scan(bf, g, clock, seeds).state.cycles, ByWeight) == []
  {
  }

  /** The scan of the whole graph: profitable cycles only, the most profitable first. */
  method DetectNegativeCycles(bf: BellmanFord, g: Graph, clock: nat -> nat) returns (cycles: seq<DetectedCycle>)
    requires WellFormed(g)
    ensures cycles == StableSort.Sort(FullScan(bf, g, clock).state.cycles, ByWeight)
    ensures forall i, j | 0 <= i < j < |cycles| :: cycles[i].totalWeight <= cycles[j].totalWeight
    ensures forall c | c in cycles :: Profitable(g, bf.maxHops, c) && c.totalWeight < -0.0000000001
    ensures NoProfitableLoop(g) ==> cycles == []
    ensures NeverLate(clock, bf.maxTimeUs) ==> Detects(g, bf.maxHops, Everything(|g|), cycles)
  {
    ResultIsSound(bf, g, clock, Everything(|g|));
    if NeverLate(clock, bf.maxTimeUs) { ResultDetects(bf, g, clock, Everything(|g|)); }
    if |g| == 0 {
      NothingToScan(bf, g, clock, Everything(|g|));
      return [];
    }
    var dist, pred, inQueue, count, queue := SeedEverything(|g|);
    cycles := RunQueue(bf, g, clock, dist, pred, inQueue, count, queue);
  }

  /** The scan that starts from the affected vertices only. */
  method DetectFromAffected(bf: BellmanFord, g: Graph, affected: seq<nat>, clock: nat -> nat)
    returns (cycles: seq<DetectedCycle>)
    requires WellFormed(g)
    ensures cycles == StableSort.Sort(AffectedScan(bf, g, affected, clock).state.cycles, ByWeight)
    ensures forall i, j | 0 <= i < j < |cycles| :: cycles[i].totalWeight <= cycles[j].totalWeight
    ensures forall c | c in cycles :: Profitable(g, bf.maxHops, c) && c.totalWeight < -0.0000000001
    ensures NoProfitableLoop(g) ==> cycles == []
    ensures NeverLate(clock, bf.maxTimeUs) ==> Detects(g, bf.maxHops, affected, cycles)
  {
    ResultIsSound(bf, g, clock, ValidSeeds(affected, |g|));
    if NeverLate(clock, bf.maxTimeUs) { AffectedResultDetects(bf, g, clock, affected); }
    if affected == [] {
      NothingToScan(bf, g, clock, ValidSeeds(affected, |g|));
      return [];
    }
    if |g| == 0 {
      assert ValidSeeds(affected, 0) == [] by { NoVertexNoSeed(affected); }
      NothingToScan(bf, g, clock, ValidSeeds(affected, |g|));
      return [];
    }
    var dist, pred, inQueue, count, queue := SeedAffected(|g|, affected);
    cycles := RunQueue(bf, g, clock, dist, pred, inQueue, count, queue);
  }
}
