/**
 Reading a cycle off the predecessor array: walk back as many steps as there are
 vertices, then trace until the same vertex comes round again.
 */
module CycleExtraction {
  import opened Wrappers
  import opened PriceGraph
  import opened Predecessors

  /** A cycle of the price graph; the last vertex of `path` is the first one again. */
  datatype DetectedCycle = DetectedCycle(path: seq<nat>, totalWeight: real)

  ghost predicate ClosedPath(path: seq<nat>) {
    && |path| >= 2
    && path[0] == path[|path| - 1]
    && (forall i, j | 0 <= i < j < |path| - 1 :: path[i] != path[j])
  }

  /** What a report promises: a simple cycle of unfiltered hops, short enough, and profitable. */
  ghost predicate Profitable(g: Graph, maxHops: nat, c: DetectedCycle) {
    && ClosedPath(c.path)
    && |c.path| - 1 <= maxHops
    && IsPath(g, c.path)
    && c.totalWeight == PathWeight(g, c.path, |c.path| - 1)
    && c.totalWeight < -EPS
  }

  predicate Linked(pred: Preds, u: nat, v: nat) {
    v < |pred| && pred[v] == Some(u)
  }

  /** Each vertex of `path` is the predecessor of the next. */
  ghost predicate Follows(pred: Preds, path: seq<nat>) {
    forall i | 0 <= i < |path| - 1 :: Linked(pred, path[i], path[i + 1])
  }

  lemma CyclesNeverEnd(pred: Preds, c: nat)
    requires InRange(pred) && OnCycle(pred, c)
    ensures forall k: nat :: Back(pred, c, k).Some?
  {
    forall k: nat ensures Back(pred, c, k).Some? { CycleNeverEnds(pred, c, k); }
  }

  /** The cycle through `c`, walked forward and closed. */
  ghost function CyclePath(pred: Preds, c: nat): (path: seq<nat>)
    requires InRange(pred) && OnCycle(pred, c)
    ensures |path| == Period(pred, c) + 1
  {
    var p := Period(pred, c);
    CyclesNeverEnd(pred, c);
    seq(p + 1, i requires 0 <= i <= p => Back(pred, c, if i < p then p - 1 - i else p - 1).value)
  }

  lemma StepIsPred(pred: Preds, v: nat)
    requires InRange(pred) && v < |pred|
    ensures Back(pred, v, 1) == pred[v]
  {
  }

  lemma CyclePathIsLinked(pred: Preds, c: nat, i: nat)
    requires InRange(pred) && OnCycle(pred, c) && i < Period(pred, c)
    ensures Linked(pred, CyclePath(pred, c)[i], CyclePath(pred, c)[i + 1])
  {
    CyclesNeverEnd(pred, c);
    var p, path := Period(pred, c), CyclePath(pred, c);
    var k := if i + 1 < p then p - 2 - i else p - 1;
    BackAdds(pred, c, k, 1);
    StepIsPred(pred, path[i + 1]);
  }

  /** The path of a cycle is closed, simple, and follows the predecessor array. */
  lemma CyclePathFollows(pred: Preds, c: nat)
    requires InRange(pred) && OnCycle(pred, c)
    ensures ClosedPath(CyclePath(pred, c))
    ensures forall i | 0 <= i < |CyclePath(pred, c)| :: CyclePath(pred, c)[i] < |pred|
    ensures Follows(pred, CyclePath(pred, c))
  {
    CyclesNeverEnd(pred, c);
    var p, path := Period(pred, c), CyclePath(pred, c);
    forall i, j | 0 <= i < j < p ensures path[i] != path[j] { CycleIsSimple(pred, c, p - 1 - j, p - 1 - i); }
    forall i | 0 <= i < p ensures Linked(pred, path[i], path[i + 1]) { CyclePathIsLinked(pred, c, i); }
  }

  /** What extraction returns, for any predecessor array whatever. */
  ghost function Extract(g: Graph, maxHops: nat, start: nat, pred: Preds): Option<DetectedCycle>
    requires InRange(pred) && start < |pred| == |g|
  {
    if Back(pred, start, |pred|).None? then None
    else
      LongWalkEndsOnCycle(pred, start);
      var path := CyclePath(pred, Back(pred, start, |pred|).value);
      CyclePathFollows(pred, Back(pred, start, |pred|).value);
      if |path| - 1 > maxHops || !IsPath(g, path) then None
      else Some(DetectedCycle(path, PathWeight(g, path, |path| - 1)))
  }

  /** The cheapest edge of `es` to `v`, as the minimum search over the edge list finds it. */
  method BestEdge(es: seq<Edge>, v: nat) returns (best: Option<real>)
    ensures best == Cheapest(es, v)
  {
    best := None;
    for i := 0 to |es|
      invariant best == Cheapest(es[..i], v)
    {
      assert es[..i + 1][..i] == es[..i];
      if Connects(es[i], v) && (best.None? || es[i].weight < best.value) {
        best := Some(es[i].weight);
      }
    }
    assert es[..|es|] == es;
  }

  /** As many back-steps as there are vertices. */
  method WalkBack(pred: Preds, start: nat) returns (r: Option<nat>)
    requires InRange(pred) && start < |pred|
    ensures r == Back(pred, start, |pred|)
  {
    var n := |pred|;
    var v := start;
    for i := 0 to n
      invariant v < n && Back(pred, start, i) == Some(v)
    {
      BackAdds(pred, start, i, n - i);
      BackAdds(pred, start, i, 1);
      StepIsPred(pred, v);
      if pred[v].None? {
        return None;
      }
      v := pred[v].value;
    }
    r := Some(v);
  }

  lemma {:induction false} PathWeightOfPrefix(g: Graph, path: seq<nat>, m: nat, k: nat)
    requires k < m <= |path| && IsPath(g, path[..m]) && IsPath(g, path)
    ensures PathWeight(g, path[..m], k) == PathWeight(g, path, k)
  {
    if k > 0 { PathWeightOfPrefix(g, path, m, k - 1); }
  }

  /** A path one hop longer, and what it weighs. */
  lemma PathGrows(g: Graph, path: seq<nat>, i: nat)
    requires i + 1 < |path| && IsPath(g, path[..i + 1]) && path[i] < |g| && path[i + 1] < |g|
    requires HasHop(g, path[i], path[i + 1])
    ensures IsPath(g, path[..i + 2])
    ensures PathWeight(g, path[..i + 2], i + 1)
         == PathWeight(g, path[..i + 1], i) + HopWeight(g, path[i], path[i + 1])
  {
    assert path[..i + 2][..i + 1] == path[..i + 1];
    PathWeightOfPrefix(g, path[..i + 2], i + 1, i);
  }

  /** Sums the cheapest edges along `path`; `None` when a hop has no unfiltered edge. */
  method TotalWeight(g: Graph, path: seq<nat>) returns (r: Option<real>)
    requires |path| >= 1 && forall i | 0 <= i < |path| :: path[i] < |g|
    ensures r == if IsPath(g, path) then Some(PathWeight(g, path, |path| - 1)) else None
  {
    var totalWeight := 0.0;
    for i := 0 to |path| - 1
      invariant IsPath(g, path[..i + 1])
      invariant totalWeight == PathWeight(g, path[..i + 1], i)
    {
      var best := BestEdge(g[path[i]], path[i + 1]);
      if best.None? {
        assert !HasHop(g, path[i], path[i + 1]);
        return None;
      }
      PathGrows(g, path, i);
      totalWeight := totalWeight + best.value;
    }
    assert path[..|path|] == path;
    r := Some(totalWeight);
  }

  /** The tracing loop: from a vertex on a cycle it collects exactly that cycle. */
  method TraceCycle(pred: Preds, c: nat) returns (path: seq<nat>)
    requires InRange(pred) && OnCycle(pred, c)
    ensures path == CyclePath(pred, c)
  {
    CyclesNeverEnd(pred, c);
    var n := |pred|;
    var back := [c];
    StepIsPred(pred, c);
    var current := pred[c].value;
    var safety := 0;
    while current != c && safety < n
      invariant safety <= n && |back| == safety + 1 <= Period(pred, c)
      invariant forall i | 0 <= i < |back| :: Back(pred, c, i) == Some(back[i])
      invariant Back(pred, c, safety + 1) == Some(current)
      invariant forall q: nat | 1 <= q <= safety :: Back(pred, c, q) != Some(c)
      decreases n - safety
    {
      BackAdds(pred, c, safety + 1, 1);
      StepIsPred(pred, current);
      back := back + [current];
      current := pred[current].value;
      safety := safety + 1;
    }
    // The trace closed before the guard, so `current` is the start again.
    assert current == c && safety + 1 == Period(pred, c) <= n;
    path := seq(|back|, i requires 0 <= i < |back| => back[|back| - 1 - i]);
    path := path + [path[0]];
  }

  /**
   Walks back and traces the cycle. The guard on the number of traced steps and
   the exit for a trace that did not close are never needed.
   */
  method ExtractCycle(g: Graph, maxHops: nat, start: nat, pred: Preds) returns (r: Option<DetectedCycle>)
    requires InRange(pred) && start < |pred| == |g|
    ensures r == Extract(g, maxHops, start, pred)
  {
    var v := WalkBack(pred, start);
    if v.None? {
      return None;
    }
    LongWalkEndsOnCycle(pred, start);
    var path := TraceCycle(pred, v.value);
    CyclePathFollows(pred, v.value);
    if |path| - 1 > maxHops {
      return None;
    }
    var totalWeight := TotalWeight(g, path);
    r := if totalWeight.None? then None else Some(DetectedCycle(path, totalWeight.value));
  }

  /** Any report follows unfiltered hops in a simple closed path within the hop limit. */
  lemma ExtractedIsCycle(g: Graph, maxHops: nat, start: nat, pred: Preds)
    requires InRange(pred) && start < |pred| == |g| && Extract(g, maxHops, start, pred).Some?
    ensures var c := Extract(g, maxHops, start, pred).value;
            && ClosedPath(c.path) && |c.path| - 1 <= maxHops && IsPath(g, c.path)
            && c.totalWeight == PathWeight(g, c.path, |c.path| - 1)
            && Follows(pred, c.path) && Some(c.path[|c.path| - 2]) == Back(pred, start, |pred|)
  {
    LongWalkEndsOnCycle(pred, start);
    CyclePathFollows(pred, Back(pred, start, |pred|).value);
  }

  /** On an array of real hops only a short walk or the hop limit stops a report. */
  lemma ExtractionSucceeds(g: Graph, maxHops: nat, start: nat, pred: Preds)
    requires Backed(g, pred) && start < |pred|
    ensures Extract(g, maxHops, start, pred).None? <==>
              || Back(pred, start, |pred|).None?
              || (LongWalkEndsOnCycle(pred, start); Period(pred, Back(pred, start, |pred|).value) > maxHops)
  {
    if Back(pred, start, |pred|).Some? {
      LongWalkEndsOnCycle(pred, start);
      var path := CyclePath(pred, Back(pred, start, |pred|).value);
      CyclePathFollows(pred, Back(pred, start, |pred|).value);
      forall i | 0 <= i < |path| - 1 ensures HasHop(g, path[i], path[i + 1]) {
        assert Linked(pred, path[i], path[i + 1]);
      }
    }
  }

  /** Following predecessors, a path weighs what the walk back over it weighs. */
  lemma {:induction false} PathWeighsBack(g: Graph, pred: Preds, path: seq<nat>, k: nat)
    requires Backed(g, pred) && IsPath(g, path) && k < |path|
    requires Follows(pred, path)
    ensures Back(pred, path[k], k) == Some(path[0])
    ensures BackWeight(g, pred, path[k], k) == PathWeight(g, path, k)
  {
    if k > 0 {
      PathWeighsBack(g, pred, path, k - 1);
      assert Linked(pred, path[k - 1], path[k]);
    }
  }

  /** Where every predecessor cycle gains, every report is profitable. */
  lemma ExtractedIsProfitable(g: Graph, maxHops: nat, start: nat, pred: Preds)
    requires Backed(g, pred) && CyclesGain(g, pred) && start < |pred|
    requires Extract(g, maxHops, start, pred).Some?
    ensures Profitable(g, maxHops, Extract(g, maxHops, start, pred).value)
  {
    ExtractedIsCycle(g, maxHops, start, pred);
    LongWalkEndsOnCycle(pred, start);
    var v := Back(pred, start, |pred|).value;
    CyclePathFollows(pred, v);
    var path := CyclePath(pred, v);
    PathWeighsBack(g, pred, path, |path| - 1);
    assert GainsFrom(g, pred, path[|path| - 1], |path| - 1);
  }
}
