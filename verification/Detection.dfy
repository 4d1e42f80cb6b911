/**
 Which loops a whole scan is sure to find. The relaxation limit can be used up before a
 loop closes in the predecessor array, but not where every vertex has one way in: there a
 vertex is relaxed at most once more than the vertex before it, so at the limit the walk
 back is long enough to end on a cycle.
 */
module Detection {
  import opened Wrappers
  import opened PriceGraph
  import opened Predecessors
  import opened CycleExtraction
  import opened CycleSearch
  import opened Scans
  import StableSort

  // ----- ways in

  predicate Way(g: Graph, u: nat, e: Edge) {
    u < |g| && e in g[u] && !e.filtered
  }

  /** No other unfiltered edge has the target of `e`, up to copies of `e` itself. */
  ghost predicate OnlyWay(g: Graph, u: nat, e: Edge) {
    forall x: nat, f: Edge | Way(g, x, f) && f.to == e.to :: x == u && f == e
  }

  /** Every vertex of the area has at most one way in, and that from the area. */
  ghost predicate OneWayInto(g: Graph, area: set<nat>) {
    forall u: nat, e: Edge | Way(g, u, e) && e.to in area :: u in area && OnlyWay(g, u, e)
  }

  lemma HopIsWay(g: Graph, u: nat, v: nat) returns (e: Edge)
    requires u < |g| && HasHop(g, u, v)
    ensures Way(g, u, e) && e.to == v
  {
    CheapestIsLeast(g[u], v);
    e :| e in g[u] && Connects(e, v);
  }

  /** A hop into the area comes over the way in. */
  lemma HopComesOverWay(g: Graph, area: set<nat>, p: nat, u: nat, e: Edge)
    requires OneWayInto(g, area) && Way(g, u, e) && e.to in area && p < |g| && HasHop(g, p, e.to)
    ensures p == u
  {
    var f := HopIsWay(g, p, e.to);
    assert OnlyWay(g, u, e);
  }

  lemma HopComesFromArea(g: Graph, area: set<nat>, p: nat, v: nat)
    requires OneWayInto(g, area) && v in area && p < |g| && HasHop(g, p, v)
    ensures p in area
  {
    var f := HopIsWay(g, p, v);
  }

  // ----- relaxations keep pace

  /** The target was relaxed at most once per label of the source, the present one counted if it was passed on. */
  ghost predicate PacedOver(s: State, u: nat, e: Edge)
    requires u < |s.dist| == |s.count| && e.to < |s.dist|
  {
    s.count[e.to] <= s.count[u] + if Improves(s.dist, u, e) then 0 else 1
  }

  ghost predicate Paced(g: Graph, area: set<nat>, s: State)
    requires Shape(g, s)
  {
    forall u: nat, e: Edge | Way(g, u, e) && e.to in area :: e.to < |g| && PacedOver(s, u, e)
  }

  /** A vertex has a predecessor exactly when it was relaxed. */
  ghost predicate RelaxedHavePred(s: State)
    requires |s.pred| == |s.count|
  {
    forall v | 0 <= v < |s.pred| :: s.count[v] >= 1 <==> s.pred[v].Some?
  }

  lemma PaceAfterLabel(s: State, u: nat, e: Edge, x: nat, f: Edge)
    requires u < |s.dist| == |s.pred| == |s.count| && e.to < |s.dist| && Improves(s.dist, u, e) && PacedOver(s, u, e)
    requires x < |s.dist| && f.to < |s.dist| && PacedOver(s, x, f) && (f.to == e.to ==> x == u && f == e)
    ensures PacedOver(Label(s, u, e), x, f)
  {
  }

  lemma OtherPaceAfterLabel(s: State, u: nat, e: Edge, x: nat, f: Edge)
    requires u < |s.dist| == |s.pred| == |s.count| && e.to < |s.dist| && Improves(s.dist, u, e)
    requires x < |s.dist| && f.to < |s.dist| && PacedOver(s, x, f) && f.to != e.to
    ensures PacedOver(Label(s, u, e), x, f)
  {
  }

  lemma LabelKeepsPace(g: Graph, area: set<nat>, s: State, u: nat, e: Edge)
    requires Shape(g, s) && Paced(g, area, s) && OneWayInto(g, area)
    requires Way(g, u, e) && e.to < |g| && Improves(s.dist, u, e) && Shape(g, Label(s, u, e))
    ensures Paced(g, area, Label(s, u, e))
  {
    forall x: nat, f: Edge | Way(g, x, f) && f.to in area ensures f.to < |g| && PacedOver(Label(s, u, e), x, f) {
      assert PacedOver(s, x, f);
      if f.to == e.to {
        assert OnlyWay(g, x, f);
        PaceAfterLabel(s, u, e, x, f);
      } else {
        OtherPaceAfterLabel(s, u, e, x, f);
      }
    }
  }

  /** From a vertex of the area as many back-steps succeed as it was relaxed. */
  lemma {:induction false} WalkBackKeepsPace(g: Graph, area: set<nat>, s: State, v: nat, k: nat)
    requires Shape(g, s) && Paced(g, area, s) && RelaxedHavePred(s) && Backed(g, s.pred) && OneWayInto(g, area)
    requires v < |g| && v in area && k <= s.count[v]
    ensures Back(s.pred, v, k).Some?
    decreases k
  {
    if k > 0 {
      var u := s.pred[v].value;
      var e := HopIsWay(g, u, v);
      assert PacedOver(s, u, e);
      WalkBackKeepsPace(g, area, s, u, k - 1);
    }
  }

  // ----- cycles of the area

  lemma {:induction false} BackStaysInArea(g: Graph, area: set<nat>, pred: Preds, v: nat, k: nat)
    requires Backed(g, pred) && OneWayInto(g, area) && v < |g| && v in area && Back(pred, v, k).Some?
    ensures Back(pred, v, k).value in area
    decreases k
  {
    if k > 0 {
      HopComesFromArea(g, area, pred[v].value, v);
      BackStaysInArea(g, area, pred, pred[v].value, k - 1);
    }
  }

  lemma {:induction false} DistinctFit(s: seq<nat>, area: set<nat>)
    requires (forall i | 0 <= i < |s| :: s[i] in area) && forall i, j | 0 <= i < j < |s| :: s[i] != s[j]
    ensures |s| <= |area|
  {
    if s != [] {
      var m := |s| - 1;
      DistinctFit(s[..m], area - {s[m]});
    }
  }

  /** A cycle of predecessors in the area is no longer than the area is large. */
  lemma CycleFits(g: Graph, area: set<nat>, pred: Preds, c: nat)
    requires Backed(g, pred) && OneWayInto(g, area) && OnCycle(pred, c) && c in area
    ensures Period(pred, c) <= |area|
  {
    var p := Period(pred, c);
    CyclesNeverEnd(pred, c);
    var s := seq(p, i requires 0 <= i < p => Back(pred, c, i).value);
    forall i | 0 <= i < p ensures s[i] in area { BackStaysInArea(g, area, pred, c, i); }
    forall i, j | 0 <= i < j < p ensures s[i] != s[j] { CycleIsSimple(pred, c, i, j); }
    DistinctFit(s, area);
  }

  // ----- reports at the limit

  ghost predicate StartsBehind(pred: Preds, v: nat, c: DetectedCycle, k: nat)
    requires InRange(pred) && v < |pred|
  {
    c.path != [] && Back(pred, v, k) == Some(c.path[0])
  }

  /** The walk back from `v` meets the start of a reported cycle. */
  ghost predicate FoundBehind(pred: Preds, cycles: seq<DetectedCycle>, v: nat)
    requires InRange(pred) && v < |pred|
  {
    exists c, k: nat :: c in cycles && StartsBehind(pred, v, c, k)
  }

  lemma ExtractedIsBehind(g: Graph, maxHops: nat, v: nat, pred: Preds)
    requires Backed(g, pred) && v < |g| && Extract(g, maxHops, v, pred).Some?
    ensures FoundBehind(pred, [Extract(g, maxHops, v, pred).value], v)
  {
    LongWalkEndsOnCycle(pred, v);
    var c, r := Back(pred, v, |g|).value, Extract(g, maxHops, v, pred).value;
    var p := Period(pred, c);
    CyclesNeverEnd(pred, c);
    BackAdds(pred, v, |g|, p - 1);
    assert r.path[0] == Back(pred, c, p - 1).value;
    assert StartsBehind(pred, v, r, |g| + (p - 1));
  }

  /** At the limit extraction succeeds, with a cycle that the walk back meets. */
  lemma LimitIsReported(g: Graph, maxHops: nat, area: set<nat>, s: State, v: nat)
    requires Shape(g, s) && Paced(g, area, s) && RelaxedHavePred(s) && Backed(g, s.pred) && OneWayInto(g, area)
    requires |area| <= maxHops && v < |g| && v in area && s.count[v] >= |g|
    ensures Extract(g, maxHops, v, s.pred).Some?
    ensures FoundBehind(s.pred, [Extract(g, maxHops, v, s.pred).value], v)
  {
    WalkBackKeepsPace(g, area, s, v, |g|);
    LongWalkEndsOnCycle(s.pred, v);
    var c := Back(s.pred, v, |g|).value;
    BackStaysInArea(g, area, s.pred, v, |g|);
    CycleFits(g, area, s.pred, c);
    ExtractionSucceeds(g, maxHops, v, s.pred);
    ExtractedIsBehind(g, maxHops, v, s.pred);
  }

  /** Every vertex of an extracted cycle has the start of that cycle behind it. */
  lemma CycleIsBehindItsVertices(g: Graph, maxHops: nat, v: nat, pred: Preds, w: nat)
    requires Backed(g, pred) && v < |g| && Extract(g, maxHops, v, pred).Some?
    requires w in Extract(g, maxHops, v, pred).value.path
    ensures w < |g| && FoundBehind(pred, [Extract(g, maxHops, v, pred).value], w)
  {
    LongWalkEndsOnCycle(pred, v);
    CyclePathFollows(pred, Back(pred, v, |g|).value);
    var r := Extract(g, maxHops, v, pred).value;
    var k :| 0 <= k < |r.path| && r.path[k] == w;
    PathWeighsBack(g, pred, r.path, k);
    assert StartsBehind(pred, w, r, k);
  }

  // ----- what every step keeps

  /** Every vertex of the area that was reported or reached the limit has a reported cycle behind it. */
  ghost predicate Noted(area: set<nat>, s: State)
    requires InRange(s.pred) && |s.pred| == |s.count| == |s.visited|
  {
    forall v | v in area && v < |s.pred| && (s.visited[v] || s.count[v] >= |s.pred|) ::
      FoundBehind(s.pred, s.cycles, v)
  }

  ghost predicate Watched(g: Graph, area: set<nat>, s: State) {
    Shape(g, s) && Backed(g, s.pred) && Paced(g, area, s) && RelaxedHavePred(s) && Noted(area, s)
  }

  /** Predecessors that are set in the area stay as they are. */
  ghost predicate KeepsPreds(area: set<nat>, pred: Preds, pred': Preds) {
    |pred| == |pred'| && forall v | v in area && v < |pred| && pred[v].Some? :: pred'[v] == pred[v]
  }

  lemma {:induction false} BackIsKept(g: Graph, area: set<nat>, pred: Preds, pred': Preds, v: nat, k: nat)
    requires Backed(g, pred) && InRange(pred') && KeepsPreds(area, pred, pred') && OneWayInto(g, area)
    requires v < |g| && v in area && Back(pred, v, k).Some?
    ensures Back(pred', v, k) == Back(pred, v, k)
    decreases k
  {
    if k > 0 {
      HopComesFromArea(g, area, pred[v].value, v);
      BackIsKept(g, area, pred, pred', pred[v].value, k - 1);
    }
  }

  lemma FoundIsKept(g: Graph, area: set<nat>, s: State, s': State, v: nat)
    requires Backed(g, s.pred) && InRange(s'.pred) && KeepsPreds(area, s.pred, s'.pred) && OneWayInto(g, area)
    requires s.cycles <= s'.cycles && v < |g| && v in area && FoundBehind(s.pred, s.cycles, v)
    ensures FoundBehind(s'.pred, s'.cycles, v)
  {
    var c, k: nat :| c in s.cycles && StartsBehind(s.pred, v, c, k);
    BackIsKept(g, area, s.pred, s'.pred, v, k);
    assert c in s'.cycles && StartsBehind(s'.pred, v, c, k);
  }

  lemma LabelKeepsPreds(g: Graph, area: set<nat>, s: State, u: nat, e: Edge)
    requires Shape(g, s) && Backed(g, s.pred) && OneWayInto(g, area)
    requires Way(g, u, e) && e.to < |g| && Improves(s.dist, u, e)
    ensures Backed(g, Label(s, u, e).pred) && KeepsPreds(area, s.pred, Label(s, u, e).pred)
  {
    EdgeHasHop(g, u, e);
    if e.to in area && s.pred[e.to].Some? { HopComesOverWay(g, area, s.pred[e.to].value, u, e); }
  }

  /** One report: the cycles grow by it, and its vertices become marked. */
  lemma FoundAfterReport(g: Graph, maxHops: nat, l: State, v: nat, w: nat)
    requires Shape(g, l) && Backed(g, l.pred) && v < |g| && w < |g| && Extract(g, maxHops, v, l.pred).Some?
    requires var c := Extract(g, maxHops, v, l.pred).value;
             w in c.path || FoundBehind(l.pred, l.cycles, w) || FoundBehind(l.pred, [c], w)
    ensures FoundBehind(l.pred, Report(l, Extract(g, maxHops, v, l.pred)).cycles, w)
  {
    var c := Extract(g, maxHops, v, l.pred).value;
    if w in c.path { CycleIsBehindItsVertices(g, maxHops, v, l.pred, w); }
    if FoundBehind(l.pred, l.cycles, w) {
      var d, k: nat :| d in l.cycles && StartsBehind(l.pred, w, d, k);
      assert d in l.cycles + [c];
    } else {
      var d, k: nat :| d in [c] && StartsBehind(l.pred, w, d, k);
      assert d in l.cycles + [c];
    }
  }

  /** In the labelled state every noted vertex but perhaps the labelled one still has its report behind it. */
  lemma SettleKeepsNoted(g: Graph, maxHops: nat, area: set<nat>, l: State, v: nat)
    requires Shape(g, l) && Backed(g, l.pred) && Paced(g, area, l) && RelaxedHavePred(l) && OneWayInto(g, area)
    requires |area| <= maxHops && v < |g|
    requires forall w | w in area && w < |g| && (l.visited[w] || (w != v && l.count[w] >= |g|)) ::
               FoundBehind(l.pred, l.cycles, w)
    ensures Noted(area, Settle(g, maxHops, l, v))
  {
    var r := Settle(g, maxHops, l, v);
    if l.count[v] >= |g| && !l.visited[v] {
      if v in area { LimitIsReported(g, maxHops, area, l, v); }
      if Extract(g, maxHops, v, l.pred).Some? {
        forall w | w in area && w < |g| && (r.visited[w] || r.count[w] >= |g|)
          ensures FoundBehind(r.pred, r.cycles, w)
        {
          FoundAfterReport(g, maxHops, l, v, w);
        }
      }
    }
  }

  lemma SettleKeepsPace(g: Graph, maxHops: nat, area: set<nat>, l: State, v: nat)
    requires Shape(g, l) && Backed(g, l.pred) && Paced(g, area, l) && RelaxedHavePred(l) && v < |g|
    ensures var r := Settle(g, maxHops, l, v);
            Backed(g, r.pred) && Paced(g, area, r) && RelaxedHavePred(r)
  {
  }

  lemma RelaxKeepsWatched(g: Graph, maxHops: nat, area: set<nat>, s: State, u: nat, e: Edge)
    requires Watched(g, area, s) && OneWayInto(g, area) && |area| <= maxHops
    requires u < |g| && e in g[u] && e.to < |g|
    ensures Watched(g, area, Relax(g, maxHops, s, u, e))
  {
    if Improves(s.dist, u, e) {
      var l := Label(s, u, e);
      LabelKeepsPreds(g, area, s, u, e);
      LabelKeepsPace(g, area, s, u, e);
      forall w | w in area && w < |g| && (l.visited[w] || (w != e.to && l.count[w] >= |g|))
        ensures FoundBehind(l.pred, l.cycles, w)
      {
        FoundIsKept(g, area, s, l, w);
      }
      SettleKeepsNoted(g, maxHops, area, l, e.to);
      SettleKeepsPace(g, maxHops, area, l, e.to);
    }
  }

  lemma {:induction false} RelaxFromKeepsWatched(g: Graph, maxHops: nat, area: set<nat>, s: State, u: nat, i: nat)
    requires Watched(g, area, s) && OneWayInto(g, area) && |area| <= maxHops && u < |g| && i <= |g[u]|
    ensures Watched(g, area, RelaxFrom(g, maxHops, s, u, i))
    decreases |g[u]| - i
  {
    if i < |g[u]| {
      RelaxKeepsWatched(g, maxHops, area, s, u, g[u][i]);
      RelaxFromKeepsWatched(g, maxHops, area, Relax(g, maxHops, s, u, g[u][i]), u, i + 1);
    }
  }

  lemma PopKeepsWatched(g: Graph, area: set<nat>, s: State)
    requires Watched(g, area, s) && s.queue != []
    ensures Watched(g, area, Pop(s))
  {
  }

  lemma {:induction false} SearchKeepsWatched(
    g: Graph, maxHops: nat, maxTimeUs: nat, clock: nat -> nat, area: set<nat>, s: State, pops: nat)
    requires Watched(g, area, s) && OneWayInto(g, area) && |area| <= maxHops
    ensures Watched(g, area, Search(g, maxHops, maxTimeUs, clock, s, pops).state)
    decreases |s.queue| + Budget(s.count, |g|)
  {
    if s.queue != [] {
      PopKeepsWatched(g, area, s);
      if clock(pops) <= maxTimeUs {
        RelaxFromKeepsWatched(g, maxHops, area, Pop(s), s.queue[0], 0);
        SearchStep(g, maxHops, maxTimeUs, clock, s, pops);
        NextIsSmaller(g, maxHops, s);
        SearchKeepsWatched(g, maxHops, maxTimeUs, clock, area, RelaxFrom(g, maxHops, Pop(s), s.queue[0], 0), pops + 1);
      }
    }
  }

  lemma StartIsWatched(g: Graph, area: set<nat>, seeds: seq<nat>)
    requires WellFormed(g) && forall i | 0 <= i < |seeds| :: seeds[i] < |g|
    ensures Watched(g, area, SeededStart(|g|, seeds))
  {
  }

  /**
   Wherever the clock stops a scan: a vertex of the area that reached the limit has a
   reported cycle behind it.
   */
  lemma LimitInAreaIsReported(bf: BellmanFord, g: Graph, clock: nat -> nat, seeds: seq<nat>, area: set<nat>, v: nat)
    requires WellFormed(g) && forall i | 0 <= i < |seeds| :: seeds[i] < |g|
    requires OneWayInto(g, area) && |area| <= bf.maxHops && v in area && v < |g|
    ensures var s := Scan(bf, g, clock, seeds).state;
            Backed(g, s.pred) && (s.count[v] >= |g| ==> FoundBehind(s.pred, s.cycles, v))
  {
    StartIsWatched(g, area, seeds);
    SearchKeepsWatched(g, bf.maxHops, bf.maxTimeUs, clock, area, SeededStart(|g|, seeds), 0);
  }

  // ----- reports only at the limit

  ghost predicate OnlyAtLimit(g: Graph, s: State)
    requires Shape(g, s)
  {
    s.cycles != [] ==> LimitHit(g, s)
  }

  lemma RelaxKeepsOnlyAtLimit(g: Graph, maxHops: nat, s: State, u: nat, e: Edge)
    requires Shape(g, s) && OnlyAtLimit(g, s) && u < |g| && e.to < |g|
    ensures OnlyAtLimit(g, Relax(g, maxHops, s, u, e))
  {
    var r := Relax(g, maxHops, s, u, e);
    if LimitHit(g, s) {
      var v :| 0 <= v < |g| && s.count[v] >= |g|;
      assert r.count[v] >= |g|;
    } else if r.cycles != s.cycles {
      assert r.count[e.to] >= |g|;
    }
  }

  lemma {:induction false} RelaxFromKeepsOnlyAtLimit(g: Graph, maxHops: nat, s: State, u: nat, i: nat)
    requires Shape(g, s) && OnlyAtLimit(g, s) && u < |g| && i <= |g[u]|
    ensures OnlyAtLimit(g, RelaxFrom(g, maxHops, s, u, i))
    decreases |g[u]| - i
  {
    if i < |g[u]| {
      RelaxKeepsOnlyAtLimit(g, maxHops, s, u, g[u][i]);
      RelaxFromKeepsOnlyAtLimit(g, maxHops, Relax(g, maxHops, s, u, g[u][i]), u, i + 1);
    }
  }

  lemma {:induction false} SearchKeepsOnlyAtLimit(
    g: Graph, maxHops: nat, maxTimeUs: nat, clock: nat -> nat, s: State, pops: nat)
    requires Shape(g, s) && OnlyAtLimit(g, s)
    ensures OnlyAtLimit(g, Search(g, maxHops, maxTimeUs, clock, s, pops).state)
    decreases |s.queue| + Budget(s.count, |g|)
  {
    if s.queue != [] {
      assert Shape(g, Pop(s)) && OnlyAtLimit(g, Pop(s));
      if clock(pops) <= maxTimeUs {
        RelaxFromKeepsOnlyAtLimit(g, maxHops, Pop(s), s.queue[0], 0);
        SearchStep(g, maxHops, maxTimeUs, clock, s, pops);
        NextIsSmaller(g, maxHops, s);
        SearchKeepsOnlyAtLimit(g, maxHops, maxTimeUs, clock, RelaxFrom(g, maxHops, Pop(s), s.queue[0], 0), pops + 1);
      }
    }
  }

  /** On every graph a scan reports only after some vertex reached the limit. */
  lemma ReportsNeedLimit(bf: BellmanFord, g: Graph, clock: nat -> nat, seeds: seq<nat>)
    requires WellFormed(g) && forall i | 0 <= i < |seeds| :: seeds[i] < |g|
    ensures var s := Scan(bf, g, clock, seeds).state;
            s.cycles != [] ==> LimitHit(g, s)
  {
    SeededStartIsGood(g, bf.maxHops, seeds);
    SearchKeepsOnlyAtLimit(g, bf.maxHops, bf.maxTimeUs, clock, SeededStart(|g|, seeds), 0);
  }

  /** The vertices of a graph of size `n`. */
  ghost function Below(n: nat): (r: set<nat>)
    ensures |r| == n && forall i: nat :: i in r <==> i < n
  {
    if n == 0 then {} else Below(n - 1) + {n - 1}
  }

  /** Where no vertex has two ways in, a scan reports a cycle exactly when it reaches the limit. */
  lemma OneWayGraphReportsIffLimit(bf: BellmanFord, g: Graph, clock: nat -> nat, seeds: seq<nat>)
    requires WellFormed(g) && forall i | 0 <= i < |seeds| :: seeds[i] < |g|
    requires OneWayInto(g, Below(|g|)) && |g| <= bf.maxHops
    ensures var s := Scan(bf, g, clock, seeds).state;
            s.cycles != [] <==> LimitHit(g, s)
  {
    var s := Scan(bf, g, clock, seeds).state;
    ReportsNeedLimit(bf, g, clock, seeds);
    if LimitHit(g, s) {
      var v :| 0 <= v < |g| && s.count[v] >= |g|;
      LimitInAreaIsReported(bf, g, clock, seeds, Below(|g|), v);
      var c, k: nat :| c in s.cycles && StartsBehind(s.pred, v, c, k);
    }
  }

  // ----- loops

  /** The edge in front of edge `i` of a closed walk. */
  function Before(es: seq<Edge>, i: nat): nat
    requires i < |es|
  {
    if i == 0 then |es| - 1 else i - 1
  }

  lemma {:induction false} WalkEdge(g: Graph, x: nat, es: seq<Edge>, t: nat, i: nat)
    requires IsWalk(g, x, es, t) && i < |es|
    ensures Way(g, if i == 0 then x else es[i - 1].to, es[i]) && es[|es| - 1].to == t
    decreases |es|
  {
    if |es| > 1 { WalkEdge(g, es[0].to, es[1..], t, if i == 0 then 0 else i - 1); }
  }

  lemma LoopEdge(g: Graph, x: nat, es: seq<Edge>, i: nat)
    requires IsWalk(g, x, es, x) && i < |es|
    ensures Way(g, es[Before(es, i)].to, es[i])
  {
    WalkEdge(g, x, es, x, i);
  }

  /** A walk over which the labels of a settled search do not carry has a vertex at the limit. */
  lemma {:induction false} WalkHitsLimit(g: Graph, s: State, x: nat, es: seq<Edge>, t: nat) returns (i: nat)
    requires Shape(g, s) && s.queue == [] && SettledBut(g, s, -1) && IsWalk(g, x, es, t) && s.dist[x].Some?
    requires t < |g| ==>
               s.dist[t].None? || s.dist[t].value > s.dist[x].value + Weight(es) + |es| as real * EPS
    ensures i < |es| && var v := if i == 0 then x else es[i - 1].to; v < |g| && s.count[v] >= |g|
    decreases |es|
  {
    if s.count[x] >= |g| {
      assert es != [];
      i := 0;
    } else {
      var j :| 0 <= j < |g[x]| && g[x][j] == es[0];
      assert !Improves(s.dist, x, g[x][j]);
      var k := WalkHitsLimit(g, s, es[0].to, es[1..], t);
      i := k + 1;
    }
  }

  /** A loop beyond the tolerance has a vertex at the limit when a search has settled. */
  lemma LoopHitsLimit(g: Graph, s: State, x: nat, es: seq<Edge>) returns (i: nat)
    requires Shape(g, s) && s.queue == [] && SettledBut(g, s, -1) && IsWalk(g, x, es, x) && s.dist[x].Some?
    requires Weight(es) < -(|es| as real * EPS)
    ensures i < |es| && es[i].to < |g| && s.count[es[i].to] >= |g|
  {
    var k := WalkHitsLimit(g, s, x, es, x);
    WalkEdge(g, x, es, x, k);
    i := Before(es, k);
  }

  ghost predicate InArea(es: seq<Edge>, area: set<nat>) {
    forall i | 0 <= i < |es| :: es[i].to in area
  }

  /** The walk back from a loop with one way in stays on it. */
  lemma {:induction false} BackStaysOnLoop(
    g: Graph, area: set<nat>, pred: Preds, x: nat, es: seq<Edge>, i: nat, k: nat) returns (j: nat)
    requires Backed(g, pred) && OneWayInto(g, area) && IsWalk(g, x, es, x) && InArea(es, area)
    requires i < |es| && es[i].to < |g| && Back(pred, es[i].to, k).Some?
    ensures j < |es| && Back(pred, es[i].to, k).value == es[j].to
    decreases k
  {
    if k == 0 {
      j := i;
    } else {
      LoopEdge(g, x, es, i);
      HopComesOverWay(g, area, pred[es[i].to].value, es[Before(es, i)].to, es[i]);
      j := BackStaysOnLoop(g, area, pred, x, es, Before(es, i), k - 1);
    }
  }

  /** A closed path through a loop with one way in also passes the vertex before. */
  lemma PathPassesBefore(g: Graph, area: set<nat>, path: seq<nat>, x: nat, es: seq<Edge>, i: nat)
    requires OneWayInto(g, area) && IsWalk(g, x, es, x) && InArea(es, area)
    requires IsPath(g, path) && ClosedPath(path) && i < |es| && es[i].to in path
    ensures es[Before(es, i)].to in path
  {
    var k :| 0 <= k < |path| && path[k] == es[i].to;
    var m := if k == 0 then |path| - 1 else k;
    assert path[m] == es[i].to && HasHop(g, path[m - 1], path[m]);
    LoopEdge(g, x, es, i);
    HopComesOverWay(g, area, path[m - 1], es[Before(es, i)].to, es[i]);
  }

  lemma {:induction false} PathPassesBack(
    g: Graph, area: set<nat>, path: seq<nat>, x: nat, es: seq<Edge>, i: nat, j: nat)
    requires OneWayInto(g, area) && IsWalk(g, x, es, x) && InArea(es, area)
    requires IsPath(g, path) && ClosedPath(path) && i <= j < |es| && es[j].to in path
    ensures es[i].to in path
    decreases j
  {
    if i < j {
      PathPassesBefore(g, area, path, x, es, j);
      PathPassesBack(g, area, path, x, es, i, j - 1);
    }
  }

  /** The report passes every vertex of the loop. */
  ghost predicate Covers(c: DetectedCycle, es: seq<Edge>) {
    forall i | 0 <= i < |es| :: es[i].to in c.path
  }

  lemma PathCoversLoop(g: Graph, area: set<nat>, c: DetectedCycle, x: nat, es: seq<Edge>, j: nat)
    requires OneWayInto(g, area) && IsWalk(g, x, es, x) && InArea(es, area)
    requires IsPath(g, c.path) && ClosedPath(c.path) && j < |es| && es[j].to in c.path
    ensures Covers(c, es)
  {
    forall i | 0 <= i < |es| ensures es[i].to in c.path {
      PathPassesBack(g, area, c.path, x, es, 0, j);
      PathPassesBefore(g, area, c.path, x, es, 0);
      PathPassesBack(g, area, c.path, x, es, i, |es| - 1);
    }
  }

  /**
   A scan that the clock did not stop reports every loop beyond the tolerance that passes a
   seed and whose vertices have no way in but along the loop.
   */
  lemma LoopInAreaIsReported(
    bf: BellmanFord, g: Graph, clock: nat -> nat, seeds: seq<nat>, area: set<nat>, x: nat, es: seq<Edge>)
    requires WellFormed(g) && forall i | 0 <= i < |seeds| :: seeds[i] < |g|
    requires x in seeds && IsWalk(g, x, es, x) && Weight(es) < -(|es| as real * EPS)
    requires OneWayInto(g, area) && InArea(es, area) && |area| <= bf.maxHops
    requires !Scan(bf, g, clock, seeds).timedOut
    ensures exists c | c in Scan(bf, g, clock, seeds).state.cycles :: Covers(c, es)
  {
    var s := Scan(bf, g, clock, seeds).state;
    ScanKeeps(bf, g, clock, seeds);
    var i := LoopHitsLimit(g, s, x, es);
    LoopEdge(g, x, es, i);
    LimitInAreaIsReported(bf, g, clock, seeds, area, es[i].to);
    var c, k: nat :| c in s.cycles && StartsBehind(s.pred, es[i].to, c, k);
    var j := BackStaysOnLoop(g, area, s.pred, x, es, i, k);
    PathCoversLoop(g, area, c, x, es, j);
  }

  ghost function Vertices(es: seq<Edge>): set<nat> {
    set i | 0 <= i < |es| :: es[i].to
  }

  lemma {:induction false} SetFits(s: seq<nat>, area: set<nat>)
    requires forall v | v in area :: v in s
    ensures |area| <= |s|
  {
    if s != [] {
      var m := |s| - 1;
      assert forall v | v in area - {s[m]} :: v in s[..m];
      SetFits(s[..m], area - {s[m]});
    } else {
      assert area == {};
    }
  }

  /** A report that passes the whole loop is at least as long as the loop has vertices. */
  lemma CoverIsLong(g: Graph, maxHops: nat, c: DetectedCycle, es: seq<Edge>)
    requires Profitable(g, maxHops, c) && Covers(c, es)
    ensures |Vertices(es)| <= maxHops
  {
    var m := |c.path| - 1;
    forall v | v in Vertices(es) ensures v in c.path[..m] {
      var k :| 0 <= k < |c.path| && c.path[k] == v;
      assert c.path[..m][if k == m then 0 else k] == v;
    }
    SetFits(c.path[..m], Vertices(es));
  }

  /**
   The exact condition for such a loop: when the clock did not stop the scan, the loop is
   reported exactly when it has no more vertices than the hop limit allows.
   */
  lemma SecludedLoopIsReportedIff(
    bf: BellmanFord, g: Graph, clock: nat -> nat, seeds: seq<nat>, x: nat, es: seq<Edge>)
    requires WellFormed(g) && forall i | 0 <= i < |seeds| :: seeds[i] < |g|
    requires x in seeds && IsWalk(g, x, es, x) && Weight(es) < -(|es| as real * EPS)
    requires OneWayInto(g, Vertices(es)) && !Scan(bf, g, clock, seeds).timedOut
    ensures (exists c | c in Scan(bf, g, clock, seeds).state.cycles :: Covers(c, es)) <==>
              |Vertices(es)| <= bf.maxHops
  {
    var s := Scan(bf, g, clock, seeds).state;
    if |Vertices(es)| <= bf.maxHops {
      LoopInAreaIsReported(bf, g, clock, seeds, Vertices(es), x, es);
    } else if c :| c in s.cycles && Covers(c, es) {
      ScanIsSound(bf, g, clock, seeds);
      CoverIsLong(g, bf.maxHops, c, es);
    }
  }

  // ----- the result of a scan

  /** A loop beyond the tolerance of 1e-10 per hop whose vertices have no way in but along the loop. */
  ghost predicate SecludedLoop(g: Graph, x: nat, es: seq<Edge>) {
    IsWalk(g, x, es, x) && Weight(es) < -(|es| as real * 0.0000000001) && OneWayInto(g, Vertices(es))
  }

  ghost predicate Reported(cycles: seq<DetectedCycle>, es: seq<Edge>) {
    exists c | c in cycles :: Covers(c, es)
  }

  /** Of the secluded loops through `seeds`, exactly those within the hop limit are reported. */
  ghost predicate Detects(g: Graph, maxHops: nat, seeds: seq<nat>, cycles: seq<DetectedCycle>) {
    forall x, es | x in seeds && SecludedLoop(g, x, es) :: Reported(cycles, es) <==> |Vertices(es)| <= maxHops
  }

  lemma SortKeepsReported(found: seq<DetectedCycle>, es: seq<Edge>)
    ensures Reported(StableSort.Sort(found, ByWeight), es) <==> Reported(found, es)
  {
    var result := StableSort.Sort(found, ByWeight);
    StableSort.SortPermutes(found, ByWeight);
    assert forall c :: c in multiset(result) <==> c in multiset(found);
    if c :| c in result && Covers(c, es) { assert c in multiset(found); }
    if c :| c in found && Covers(c, es) { assert c in multiset(result); }
  }

  /** With a clock that does not stop it, a scan detects the secluded loops through its seeds. */
  lemma ResultDetects(bf: BellmanFord, g: Graph, clock: nat -> nat, seeds: seq<nat>)
    requires WellFormed(g) && forall i | 0 <= i < |seeds| :: seeds[i] < |g|
    requires NeverLate(clock, bf.maxTimeUs)
    ensures Detects(g, bf.maxHops, seeds, StableSort.Sort(Scan(bf, g, clock, seeds).state.cycles, ByWeight))
  {
    var found := Scan(bf, g, clock, seeds).state.cycles;
    SeededStartIsGood(g, bf.maxHops, seeds);
    OnlyClockStops(g, bf.maxHops, bf.maxTimeUs, clock, SeededStart(|g|, seeds), 0);
    forall x, es | x in seeds && SecludedLoop(g, x, es)
      ensures Reported(StableSort.Sort(found, ByWeight), es) <==> |Vertices(es)| <= bf.maxHops
    {
      SecludedLoopIsReportedIff(bf, g, clock, seeds, x, es);
      SortKeepsReported(found, es);
    }
  }

  /** A loop passes existing vertices only, so for the partial scan the affected vertices will do as seeds. */
  lemma AffectedResultDetects(bf: BellmanFord, g: Graph, clock: nat -> nat, affected: seq<nat>)
    requires WellFormed(g) && NeverLate(clock, bf.maxTimeUs)
    ensures Detects(g, bf.maxHops, affected,
                    StableSort.Sort(AffectedScan(bf, g, affected, clock).state.cycles, ByWeight))
  {
    var result := StableSort.Sort(AffectedScan(bf, g, affected, clock).state.cycles, ByWeight);
    ResultDetects(bf, g, clock, ValidSeeds(affected, |g|));
    forall x, es | x in affected && SecludedLoop(g, x, es)
      ensures Reported(result, es) <==> |Vertices(es)| <= bf.maxHops
    {
      ValidSeedsAreThoseInRange(affected, |g|, x);
    }
  }
}
