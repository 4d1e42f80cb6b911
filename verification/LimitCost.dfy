/**
 What the relaxation limit means and costs: when reaching it proves a profitable loop,
 and two graphs on which a complete full scan reaches it, one without any cycle and one
 whose profitable loop goes unreported.
 */
module LimitCost {
  import opened Wrappers
  import opened PriceGraph
  import opened Predecessors
  import opened CycleExtraction
  import opened CycleSearch
  import opened Scans

  /**
   For the predecessors of any state of a search: extraction gets past its walk back from `v`
   exactly when they lead to a cycle, and then the graph has a profitable loop.
   */
  lemma CycleBehindIsLoop(g: Graph, pred: Preds, v: nat)
    requires WellFormed(g) && Backed(g, pred) && CyclesGain(g, pred) && v < |g|
    ensures Back(pred, v, |g|).Some? <==> LeadsToCycle(pred, v)
    ensures LeadsToCycle(pred, v) ==> !NoProfitableLoop(g)
  {
    LongWalkIffCycle(pred, v);
    if LeadsToCycle(pred, v) {
      // No cycle is longer than the number of vertices, so that hop limit finds this one.
      LongWalkEndsOnCycle(pred, v);
      ExtractionSucceeds(g, |g|, v, pred);
      ExtractedIsProfitable(g, |g|, v, pred);
      ProfitableIsLoop(g, |g|, Extract(g, |g|, v, pred).value);
    }
  }

  lemma SettleReportsIff(g: Graph, maxHops: nat, l: State, v: nat)
    requires Shape(g, l) && Backed(g, l.pred) && v < |g| && l.count[v] >= |g| && !l.visited[v]
    ensures Settle(g, maxHops, l, v).cycles != l.cycles <==>
              LeadsToCycle(l.pred, v) && CycleLength(l.pred, v) <= maxHops
  {
    LongWalkIffCycle(l.pred, v);
    ExtractionSucceeds(g, maxHops, v, l.pred);
    var r := Extract(g, maxHops, v, l.pred);
    assert r.Some? ==> |Report(l, r).cycles| == |l.cycles| + 1;
  }

  /**
   A relaxation adds a report exactly when its target reaches the limit, lies on no reported
   path, and has predecessors that lead to a cycle within the hop limit; a cycle of any length
   proves a loop.
   */
  lemma LimitReportsIff(g: Graph, maxHops: nat, seeds: set<nat>, s: State, u: nat, e: Edge)
    requires Inv(g, maxHops, seeds, s) && u < |g| && e in g[u] && e.to < |g| && Improves(s.dist, u, e)
    ensures var pred := s.pred[e.to := Some(u)];
            && InRange(pred)
            && (Relax(g, maxHops, s, u, e).cycles != s.cycles <==>
                  && s.count[e.to] + 1 >= |g| && !OnReported(s.cycles, e.to)
                  && LeadsToCycle(pred, e.to) && CycleLength(pred, e.to) <= maxHops)
            && (LeadsToCycle(pred, e.to) ==> !NoProfitableLoop(g))
  {
    CyclesKeepGaining(g, s.dist, s.pred, u, e);
    CycleBehindIsLoop(g, s.pred[e.to := Some(u)], e.to);
    if s.count[e.to] + 1 >= |g| && !s.visited[e.to] { SettleReportsIff(g, maxHops, Label(s, u, e), e.to); }
  }

  /** A clock that stands still, so that it never stops a search. */
  const STOPPED: nat -> nat := _ => 0

  /** Two parallel edges, the second one cheaper, and no way back. */
  function NoWayBack(): Graph {
    [[Edge(1, -1.0, false), Edge(1, -2.0, false)], []]
  }

  /** A loop of weight -1 whose entry improves only after the parallel edges have used up the limit. */
  function MissedLoop(): Graph {
    [[Edge(1, -1.0, false), Edge(1, -2.0, false)], [Edge(2, 3.0, false)], [Edge(1, -4.0, false)]]
  }

  /** A state in which no vertex was ever reported. */
  function Unreported(dist: Dists, pred: Preds, inQueue: seq<bool>, count: seq<nat>, queue: seq<nat>): State
  {
    State(dist, pred, inQueue, count, queue, seq(|dist|, _ => false), [])
  }

  /** What the full scan of `MissedLoop` makes of its state by taking one vertex after the other. */
  function MissedLoopAfter(pops: nat): State
    requires 1 <= pops <= 3
  {
    match pops
    case 1 =>
      Unreported(
        [Some(0.0), Some(-2.0), Some(0.0)], [None, Some(0), None], [false, true, true], [0, 2, 0], [1, 2])
    case 2 =>
      Unreported(
        [Some(0.0), Some(-2.0), Some(0.0)], [None, Some(0), None], [false, false, true], [0, 2, 0], [2])
    case 3 =>
      Unreported(
        [Some(0.0), Some(-4.0), Some(0.0)], [None, Some(2), None], [false, false, false], [0, 3, 0], [])
  }

  /** While vertex 0 is taken, each of its edges relaxes vertex 1. */
  function MissedLoopRelaxed(relaxed: nat): State
    requires relaxed <= 2
  {
    Unreported([Some(0.0), Some(-(relaxed as real)), Some(0.0)], [None, if relaxed == 0 then None else Some(0), None],
               [false, true, true], [0, relaxed, 0], [1, 2])
  }

  lemma MissedLoopEdge(maxHops: nat, relaxed: nat)
    requires relaxed < 2
    ensures var g := MissedLoop();
            && Shape(g, MissedLoopRelaxed(relaxed))
            && Relax(g, maxHops, MissedLoopRelaxed(relaxed), 0, g[0][relaxed]) == MissedLoopRelaxed(relaxed + 1)
  {
  }

  lemma MissedLoopFirst(maxHops: nat)
    ensures var g := MissedLoop();
            var s0 := SeededStart(3, Everything(3));
            && Shape(g, s0) && s0.queue == [0, 1, 2]
            && RelaxFrom(g, maxHops, Pop(s0), 0, 0) == MissedLoopAfter(1)
  {
    var s0 := SeededStart(3, Everything(3));
    assert Everything(3) == [0, 1, 2];
    assert Pop(s0) == MissedLoopRelaxed(0);
    MissedLoopEdge(maxHops, 0);
    MissedLoopEdge(maxHops, 1);
    assert MissedLoopRelaxed(2) == MissedLoopAfter(1);
  }

  /** Vertex 1 relaxes nothing. */
  lemma MissedLoopSecond(maxHops: nat)
    ensures var g := MissedLoop();
            Shape(g, MissedLoopAfter(1)) && RelaxFrom(g, maxHops, Pop(MissedLoopAfter(1)), 1, 0) == MissedLoopAfter(2)
  {
  }

  /** Vertex 2 relaxes vertex 1 for the third time, which only looks for a cycle. */
  lemma MissedLoopThird(maxHops: nat)
    ensures var g := MissedLoop();
            Shape(g, MissedLoopAfter(2)) && RelaxFrom(g, maxHops, Pop(MissedLoopAfter(2)), 2, 0) == MissedLoopAfter(3)
  {
    var g, s, s3 := MissedLoop(), Pop(MissedLoopAfter(2)), MissedLoopAfter(3);
    assert Back(s3.pred, 2, 1).None? && Back(s3.pred, 1, 3).None?;
    assert Label(s, 2, g[2][0]) == s3;
    assert Relax(g, maxHops, s, 2, g[2][0]) == s3;
  }

  lemma MissedLoopIsLoop()
    ensures exists es | IsWalk(MissedLoop(), 1, es, 1) :: Weight(es) == -1.0
  {
    var g, es := MissedLoop(), [Edge(2, 3.0, false), Edge(1, -4.0, false)];
    assert es[1..] == [Edge(1, -4.0, false)] && es[1..][1..] == [];
    assert IsWalk(g, 1, es[1..][1..], 1) && IsWalk(g, 2, es[1..], 1) && IsWalk(g, 1, es, 1);
  }

  lemma MissedLoopScan(maxHops: nat)
    ensures FullScan(BellmanFord(maxHops, 0), MissedLoop(), STOPPED) == Outcome(MissedLoopAfter(3), false, 3)
  {
    var g := MissedLoop();
    var s0, s1, s2 := SeededStart(3, Everything(3)), MissedLoopAfter(1), MissedLoopAfter(2);
    MissedLoopFirst(maxHops);
    SearchStep(g, maxHops, 0, STOPPED, s0, 0);
    MissedLoopSecond(maxHops);
    SearchStep(g, maxHops, 0, STOPPED, s1, 1);
    MissedLoopThird(maxHops);
    SearchStep(g, maxHops, 0, STOPPED, s2, 2);
  }

  /**
   The scan can miss a loop: with no clock to stop it and any hop limit, it reports
   nothing on a graph with a closed walk of weight -1. The limit was hit, as it must be.
   */
  lemma LoopCanBeMissed(maxHops: nat)
    ensures var g := MissedLoop();
            var r := FullScan(BellmanFord(maxHops, 0), g, STOPPED);
            && !r.timedOut && LimitHit(g, r.state) && r.state.cycles == []
            && exists es | IsWalk(g, 1, es, 1) :: Weight(es) == -1.0
  {
    MissedLoopIsLoop();
    MissedLoopScan(maxHops);
    assert MissedLoopAfter(3).count[1] >= 3;
  }

  lemma NoWayBackEnds(s: nat, es: seq<Edge>, t: nat)
    requires IsWalk(NoWayBack(), s, es, t)
    ensures es == [] || (s == 0 && t == 1)
    decreases |es|
  {
    if s == 0 && es != [] { NoWayBackEnds(1, es[1..], t); }
  }

  lemma NoWayBackHasNoLoop()
    ensures NoProfitableLoop(NoWayBack())
  {
    forall s: nat, es: seq<Edge> | IsWalk(NoWayBack(), s, es, s) ensures es == [] { NoWayBackEnds(s, es, s); }
  }

  /** What the full scan of `NoWayBack` makes of its state by relaxing its edges. */
  function NoWayBackAfter(relaxed: nat, queue: seq<nat>): State
    requires relaxed <= 2 && forall i | 0 <= i < |queue| :: queue[i] == 1
  {
    Unreported([Some(0.0), Some(-(relaxed as real))], [None, if relaxed == 0 then None else Some(0)],
               [false, queue != []], [0, relaxed], queue)
  }

  lemma NoWayBackFirstEdge(maxHops: nat)
    ensures var g := NoWayBack();
            && Shape(g, NoWayBackAfter(0, [1]))
            && Relax(g, maxHops, NoWayBackAfter(0, [1]), 0, g[0][0]) == NoWayBackAfter(1, [1])
  {
  }

  /** The second edge makes vertex 1 reach the limit; there is no cycle to report. */
  lemma NoWayBackSecondEdge(maxHops: nat)
    ensures var g := NoWayBack();
            && Shape(g, NoWayBackAfter(1, [1]))
            && Relax(g, maxHops, NoWayBackAfter(1, [1]), 0, g[0][1]) == NoWayBackAfter(2, [1])
  {
    var l := NoWayBackAfter(2, [1]);
    assert Back(l.pred, 0, 1).None? && Back(l.pred, 1, 2).None?;
  }

  lemma NoWayBackFirst(maxHops: nat)
    ensures var g := NoWayBack();
            var s0 := SeededStart(2, Everything(2));
            && Shape(g, s0) && s0.queue == [0, 1]
            && RelaxFrom(g, maxHops, Pop(s0), 0, 0) == NoWayBackAfter(2, [1])
  {
    var g, s0 := NoWayBack(), SeededStart(2, Everything(2));
    assert Everything(2) == [0, 1];
    assert Pop(s0) == NoWayBackAfter(0, [1]);
    NoWayBackFirstEdge(maxHops);
    NoWayBackSecondEdge(maxHops);
  }

  lemma NoWayBackScan(maxHops: nat)
    ensures FullScan(BellmanFord(maxHops, 0), NoWayBack(), STOPPED) == Outcome(NoWayBackAfter(2, []), false, 2)
  {
    var g := NoWayBack();
    var s0, s1, s2 := SeededStart(2, Everything(2)), NoWayBackAfter(2, [1]), NoWayBackAfter(2, []);
    NoWayBackFirst(maxHops);
    SearchStep(g, maxHops, 0, STOPPED, s0, 0);
    assert Pop(s1) == s2 && RelaxFrom(g, maxHops, s2, 1, 0) == s2;
    SearchStep(g, maxHops, 0, STOPPED, s1, 1);
  }

  /** Hitting the limit does not mean that there is a cycle: here there is none. */
  lemma LimitWithoutCycle(maxHops: nat)
    ensures var g := NoWayBack();
            var r := FullScan(BellmanFord(maxHops, 0), g, STOPPED);
            && NoProfitableLoop(g)
            && !r.timedOut && LimitHit(g, r.state) && r.state.cycles == []
  {
    NoWayBackHasNoLoop();
    NoWayBackScan(maxHops);
    assert NoWayBackAfter(2, []).count[1] >= 2;
  }
}
