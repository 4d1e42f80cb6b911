/**
 The predecessor array of the detector as a functional graph: walking back,
 the cycle every long enough walk ends on, and what that cycle weighs.
 */
module Predecessors {
  import opened Wrappers
  import opened PriceGraph

  type Preds = seq<Option<nat>>

  predicate InRange(pred: Preds) {
    forall v | 0 <= v < |pred| :: pred[v].Some? ==> pred[v].value < |pred|
  }

  /** The vertex `k` predecessor steps behind `v`, if there are that many. */
  function Back(pred: Preds, v: nat, k: nat): (r: Option<nat>)
    requires InRange(pred) && v < |pred|
    ensures r.Some? ==> r.value < |pred|
    decreases k
  {
    if k == 0 then Some(v)
    else if pred[v].None? then None
    else Back(pred, pred[v].value, k - 1)
  }

  lemma {:induction false} BackAdds(pred: Preds, v: nat, j: nat, k: nat)
    requires InRange(pred) && v < |pred|
    ensures Back(pred, v, j).None? ==> Back(pred, v, j + k).None?
    ensures Back(pred, v, j).Some? ==> Back(pred, v, j + k) == Back(pred, Back(pred, v, j).value, k)
    decreases j
  {
    if j > 0 && pred[v].Some? {
      BackAdds(pred, pred[v].value, j - 1, k);
    }
  }

  /** Of more numbers below `n` than there are, two are equal. */
  lemma {:induction false} Pigeonhole(s: seq<nat>, n: nat) returns (i: nat, j: nat)
    requires |s| > n && forall k | 0 <= k < |s| :: s[k] < n
    ensures i < j < |s| && s[i] == s[j]
    decreases n
  {
    if exists k | 0 <= k < |s| - 1 :: s[k] == s[|s| - 1] {
      i :| 0 <= i < |s| - 1 && s[i] == s[|s| - 1];
      j := |s| - 1;
    } else {
      // Drop the last number and close the gap it leaves below `n`.
      var last := s[|s| - 1];
      var t := seq(|s| - 1, k requires 0 <= k < |s| - 1 => if s[k] < last then s[k] else s[k] - 1 as nat);
      assert forall k | 0 <= k < |t| :: s[k] != last;
      i, j := Pigeonhole(t, n - 1);
    }
  }

  ghost predicate IsPeriod(pred: Preds, c: nat, p: nat)
    requires InRange(pred) && c < |pred|
  {
    1 <= p <= |pred| && Back(pred, c, p) == Some(c)
  }

  ghost predicate OnCycle(pred: Preds, c: nat)
    requires InRange(pred)
  {
    c < |pred| && exists p: nat :: IsPeriod(pred, c, p)
  }

  /** If as many back-steps succeed as there are vertices, they end on a cycle. */
  lemma LongWalkEndsOnCycle(pred: Preds, v: nat)
    requires InRange(pred) && v < |pred| && Back(pred, v, |pred|).Some?
    ensures OnCycle(pred, Back(pred, v, |pred|).value)
  {
    var n := |pred|;
    forall k: nat | k <= n ensures Back(pred, v, k).Some? { BackAdds(pred, v, k, n - k); }
    var i, j := Pigeonhole(seq(n + 1, k requires 0 <= k <= n => Back(pred, v, k).value), n);
    var x, c := Back(pred, v, i).value, Back(pred, v, n).value;
    BackAdds(pred, v, i, j - i);
    BackAdds(pred, v, i, n - i);
    BackAdds(pred, x, j - i, n - i);
    BackAdds(pred, x, n - i, j - i);
    assert IsPeriod(pred, c, j - i);
  }

  ghost function LeastPeriod(pred: Preds, c: nat, k: nat, b: nat): (p: nat)
    requires InRange(pred) && c < |pred| && IsPeriod(pred, c, b) && 1 <= k <= b
    requires forall q: nat | 1 <= q < k :: Back(pred, c, q) != Some(c)
    ensures IsPeriod(pred, c, p)
    ensures forall q: nat | 1 <= q < p :: Back(pred, c, q) != Some(c)
    decreases b - k
  {
    if Back(pred, c, k) == Some(c) then k else LeastPeriod(pred, c, k + 1, b)
  }

  /** The length of the cycle through `c`. */
  ghost function Period(pred: Preds, c: nat): (p: nat)
    requires InRange(pred) && OnCycle(pred, c)
    ensures IsPeriod(pred, c, p)
    ensures forall q: nat | 1 <= q < p :: Back(pred, c, q) != Some(c)
  {
    var b: nat :| IsPeriod(pred, c, b);
    LeastPeriod(pred, c, 1, b)
  }

  /** From a vertex on a cycle every number of back-steps succeeds. */
  lemma {:induction false} CycleNeverEnds(pred: Preds, c: nat, k: nat)
    requires InRange(pred) && OnCycle(pred, c)
    ensures Back(pred, c, k).Some?
  {
    var p := Period(pred, c);
    if k <= p {
      BackAdds(pred, c, k, p - k);
    } else {
      CycleNeverEnds(pred, c, k - p);
      BackAdds(pred, c, p, k - p);
    }
  }

  ghost predicate MeetsCycle(pred: Preds, v: nat, k: nat)
    requires InRange(pred) && v < |pred|
  {
    Back(pred, v, k).Some? && OnCycle(pred, Back(pred, v, k).value)
  }

  /** Walking back from `v` comes to a cycle. */
  ghost predicate LeadsToCycle(pred: Preds, v: nat)
    requires InRange(pred) && v < |pred|
  {
    exists k: nat :: MeetsCycle(pred, v, k)
  }

  /** As many back-steps succeed as there are vertices exactly when the walk back comes to a cycle. */
  lemma LongWalkIffCycle(pred: Preds, v: nat)
    requires InRange(pred) && v < |pred|
    ensures Back(pred, v, |pred|).Some? <==> LeadsToCycle(pred, v)
  {
    var n := |pred|;
    if Back(pred, v, n).Some? {
      LongWalkEndsOnCycle(pred, v);
      assert MeetsCycle(pred, v, n);
    } else if LeadsToCycle(pred, v) {
      var k: nat :| MeetsCycle(pred, v, k);
      CycleNeverEnds(pred, Back(pred, v, k).value, n);
      BackAdds(pred, v, k, n);
      BackAdds(pred, v, n, k);
    }
  }

  /** The length of the cycle that the walk back from `v` comes to. */
  ghost function CycleLength(pred: Preds, v: nat): nat
    requires InRange(pred) && v < |pred| && LeadsToCycle(pred, v)
  {
    LongWalkIffCycle(pred, v);
    LongWalkEndsOnCycle(pred, v);
    Period(pred, Back(pred, v, |pred|).value)
  }

  /** Within one period the vertices of a cycle are distinct. */
  lemma CycleIsSimple(pred: Preds, c: nat, i: nat, j: nat)
    requires InRange(pred) && OnCycle(pred, c) && i < j < Period(pred, c)
    ensures Back(pred, c, i) != Back(pred, c, j)
  {
    var p := Period(pred, c);
    CycleNeverEnds(pred, c, i);
    CycleNeverEnds(pred, c, j);
    BackAdds(pred, c, i, p - j);
    BackAdds(pred, c, j, p - j);
  }

  // ----- weights

  /** Every predecessor entry stands for an unfiltered edge. */
  ghost predicate Backed(g: Graph, pred: Preds) {
    && |pred| == |g|
    && InRange(pred)
    && (forall v | 0 <= v < |pred| && pred[v].Some? :: HasHop(g, pred[v].value, v))
  }

  /** The weight of the hops that `k` back-steps from `v` undo, each over the cheapest edge. */
  ghost function BackWeight(g: Graph, pred: Preds, v: nat, k: nat): real
    requires Backed(g, pred) && v < |pred| && Back(pred, v, k).Some?
    decreases k
  {
    if k == 0 then 0.0
    else HopWeight(g, pred[v].value, v) + BackWeight(g, pred, pred[v].value, k - 1)
  }

  lemma {:induction false} BackWeightAdds(g: Graph, pred: Preds, v: nat, j: nat, k: nat)
    requires Backed(g, pred) && v < |pred| && Back(pred, v, j + k).Some?
    ensures Back(pred, v, j).Some? && Back(pred, Back(pred, v, j).value, k).Some?
    ensures BackWeight(g, pred, v, j + k)
         == BackWeight(g, pred, v, j) + BackWeight(g, pred, Back(pred, v, j).value, k)
    decreases j
  {
    BackAdds(pred, v, j, k);
    if j > 0 {
      BackWeightAdds(g, pred, pred[v].value, j - 1, k);
    }
  }

  /** If `k` back-steps from `v` come round to `v`, their hops gain more than the tolerance. */
  ghost predicate GainsFrom(g: Graph, pred: Preds, v: nat, k: nat)
    requires Backed(g, pred)
  {
    v < |pred| && k >= 1 && Back(pred, v, k) == Some(v) ==> BackWeight(g, pred, v, k) < -EPS
  }

  /** Every cycle of the predecessor array gains more than the tolerance. */
  ghost predicate CyclesGain(g: Graph, pred: Preds)
    requires Backed(g, pred)
  {
    forall v: nat, k: nat :: GainsFrom(g, pred, v, k)
  }

  // ----- a new predecessor

  /** The first `k` vertices of the walk back from `x` are not `v`. */
  ghost predicate Avoids(pred: Preds, x: nat, k: nat, v: nat)
    requires InRange(pred) && x < |pred|
  {
    forall i: nat | i < k :: Back(pred, x, i) != Some(v)
  }

  /** Walks that do not pass through `v` are the same after `v` gets a new predecessor. */
  lemma {:induction false} BackElsewhere(g: Graph, pred: Preds, v: nat, u: nat, x: nat, k: nat)
    requires Backed(g, pred) && v < |pred| && u < |pred| && HasHop(g, u, v) && x < |pred|
    requires Avoids(pred[v := Some(u)], x, k, v)
    ensures Back(pred[v := Some(u)], x, k) == Back(pred, x, k)
    ensures Back(pred, x, k).Some? ==>
              BackWeight(g, pred[v := Some(u)], x, k) == BackWeight(g, pred, x, k)
    decreases k
  {
    var pred' := pred[v := Some(u)];
    if k > 0 {
      assert Back(pred', x, 0) == Some(x);
      if pred[x].Some? {
        forall i: nat | i < k - 1 ensures Back(pred', pred[x].value, i) != Some(v) {
          assert Back(pred', x, i + 1) == Back(pred', pred[x].value, i);
        }
        BackElsewhere(g, pred, v, u, pred[x].value, k - 1);
      }
    }
  }

  /** The first time, after at least `j` back-steps, that the walk from `x` meets `v`. */
  lemma {:induction false} FirstMeeting(pred: Preds, x: nat, v: nat, j: nat, k: nat) returns (m: nat)
    requires InRange(pred) && x < |pred| && j <= k && Back(pred, x, k) == Some(v)
    ensures j <= m <= k && Back(pred, x, m) == Some(v)
    ensures forall i: nat | j <= i < m :: Back(pred, x, i) != Some(v)
    decreases k - j
  {
    if Back(pred, x, j) == Some(v) { m := j; } else { m := FirstMeeting(pred, x, v, j + 1, k); }
  }

  // ----- labels

  /** Distances from the seeds; `None` is the infinite distance of a vertex not reached yet. */
  type Dists = seq<Option<real>>

  /** The distance of a vertex is at least that of its predecessor plus the hop between them. */
  ghost predicate Consistent(g: Graph, dist: Dists, pred: Preds) {
    && Backed(g, pred)
    && |dist| == |g|
    && (forall v | 0 <= v < |pred| && pred[v].Some? ::
          && dist[v].Some? && dist[pred[v].value].Some?
          && dist[v].value >= dist[pred[v].value].value + HopWeight(g, pred[v].value, v))
  }

  lemma {:induction false} BackBounds(g: Graph, dist: Dists, pred: Preds, x: nat, k: nat)
    requires Consistent(g, dist, pred) && x < |g| && dist[x].Some? && Back(pred, x, k).Some?
    ensures var y := Back(pred, x, k).value;
            dist[y].Some? && dist[x].value >= dist[y].value + BackWeight(g, pred, x, k)
    decreases k
  {
    if k > 0 { BackBounds(g, dist, pred, pred[x].value, k - 1); }
  }

  /** Reaching `v` from `u` over `e` beats the label of `v` by more than the tolerance. */
  predicate Improves(dist: Dists, u: nat, e: Edge)
    requires u < |dist| && e.to < |dist|
  {
    && !e.filtered
    && dist[u].Some?
    && (dist[e.to].None? || dist[u].value + e.weight < dist[e.to].value - EPS)
  }

  /** The label that `e` out of `u` offers its target. */
  function Via(dist: Dists, u: nat, e: Edge): Option<real>
    requires u < |dist| && dist[u].Some?
  {
    Some(dist[u].value + e.weight)
  }

  lemma EdgeHasHop(g: Graph, u: nat, e: Edge)
    requires u < |g| && e in g[u] && !e.filtered
    ensures HasHop(g, u, e.to) && HopWeight(g, u, e.to) <= e.weight
  {
    CheapestIsLeast(g[u], e.to);
    assert Connects(e, e.to);
  }

  /** An improving edge closes a cycle through its target only if that cycle gains. */
  lemma {:induction false} NewCycleGains(g: Graph, dist: Dists, pred: Preds, u: nat, e: Edge, k: nat)
    requires Consistent(g, dist, pred) && u < |g| && e in g[u] && e.to < |g| && Improves(dist, u, e)
    requires HasHop(g, u, e.to) && HopWeight(g, u, e.to) <= e.weight
    requires k >= 1 && Back(pred[e.to := Some(u)], e.to, k) == Some(e.to)
    ensures BackWeight(g, pred[e.to := Some(u)], e.to, k) < -EPS
    decreases k
  {
    var v := e.to;
    var pred' := pred[v := Some(u)];
    var m := FirstMeeting(pred', v, v, 1, k);
    forall i: nat | i < m - 1 ensures Back(pred', u, i) != Some(v) {
      assert Back(pred', v, i + 1) == Back(pred', u, i);
    }
    BackElsewhere(g, pred, v, u, u, m - 1);
    BackBounds(g, dist, pred, u, m - 1);
    BackWeightAdds(g, pred', v, m, k - m);
    if m < k {
      BackAdds(pred', v, m, k - m);
      NewCycleGains(g, dist, pred, u, e, k - m);
    }
  }

  /** Every predecessor cycle still gains after an improving edge set a predecessor. */
  lemma CyclesKeepGaining(g: Graph, dist: Dists, pred: Preds, u: nat, e: Edge)
    requires Consistent(g, dist, pred) && u < |g| && e in g[u] && e.to < |g| && Improves(dist, u, e)
    requires CyclesGain(g, pred)
    ensures Backed(g, pred[e.to := Some(u)]) && CyclesGain(g, pred[e.to := Some(u)])
  {
    EdgeHasHop(g, u, e);
    var v := e.to;
    var pred' := pred[v := Some(u)];
    forall x: nat, k: nat ensures GainsFrom(g, pred', x, k) {
      if x >= |g| || k == 0 || Back(pred', x, k) != Some(x) {
      } else if Avoids(pred', x, k, v) {
        BackElsewhere(g, pred, v, u, x, k);
        assert GainsFrom(g, pred, x, k);
      } else {
        // The cycle passes through `v`: its weight is the same counted from there.
        var j: nat :| j < k && Back(pred', x, j) == Some(v);
        BackAdds(pred', x, j, k - j);
        BackAdds(pred', v, k - j, j);
        BackWeightAdds(g, pred', x, j, k - j);
        BackWeightAdds(g, pred', v, k - j, j);
        NewCycleGains(g, dist, pred, u, e, k);
      }
    }
  }

  /** The labels stay consistent when an improving edge sets a label and a predecessor. */
  lemma LabelsStayConsistent(g: Graph, dist: Dists, pred: Preds, u: nat, e: Edge)
    requires Consistent(g, dist, pred) && u < |g| && e in g[u] && e.to < |g| && Improves(dist, u, e)
    ensures Consistent(g, dist[e.to := Via(dist, u, e)], pred[e.to := Some(u)])
  {
    EdgeHasHop(g, u, e);
  }
}
