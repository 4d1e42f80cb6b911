/**
 The label-correcting search behind both scans of the detector, as a function of
 its state: a queue with small labels in front, a limit on how often a vertex is
 relaxed, and a clock that may cut the search short between two vertices.
 */
module CycleSearch {
  import opened Wrappers
  import opened PriceGraph
  import opened Predecessors
  import opened CycleExtraction

  /** The working vectors of a scan. */
  datatype State = State(
    dist: Dists,
    pred: Preds,
    inQueue: seq<bool>,
    count: seq<nat>,
    queue: seq<nat>,
    visited: seq<bool>,
    cycles: seq<DetectedCycle>)

  /** How a search ended: its last state, whether the clock stopped it, and how many vertices it took. */
  datatype Outcome = Outcome(state: State, timedOut: bool, pops: nat)

  ghost predicate Shape(g: Graph, s: State) {
    && WellFormed(g)
    && |s.dist| == |s.pred| == |s.inQueue| == |s.count| == |s.visited| == |g|
    && InRange(s.pred)
    && (forall i | 0 <= i < |s.queue| :: s.queue[i] < |g|)
  }

  predicate Less(a: Option<real>, b: Option<real>) {
    a.Some? && (b.None? || a.value < b.value)
  }

  /** Small labels first: in front of the queue if the label beats that of the front. */
  function Push(dist: Dists, queue: seq<nat>, v: nat): seq<nat>
    requires v < |dist| && forall i | 0 <= i < |queue| :: queue[i] < |dist|
  {
    if queue != [] && Less(dist[v], dist[queue[0]]) then [v] + queue else queue + [v]
  }

  function Mark(visited: seq<bool>, path: seq<nat>): (r: seq<bool>)
    ensures |r| == |visited|
  {
    seq(|visited|, i requires 0 <= i < |visited| => visited[i] || i in path)
  }

  function Report(s: State, r: Option<DetectedCycle>): State {
    if r.None? then s
    else s.(visited := Mark(s.visited, r.value.path), cycles := s.cycles + [r.value])
  }

  /** The new label and predecessor of the target of an improving edge. */
  function Label(s: State, u: nat, e: Edge): State
    requires u < |s.dist| == |s.pred| == |s.count| && e.to < |s.dist| && Improves(s.dist, u, e)
  {
    s.(dist := s.dist[e.to := Via(s.dist, u, e)],
       pred := s.pred[e.to := Some(u)],
       count := s.count[e.to := s.count[e.to] + 1])
  }

  /** What follows a new label of `v`: a look for a cycle at the limit, or else a place in the queue. */
  ghost function Settle(g: Graph, maxHops: nat, l: State, v: nat): (r: State)
    requires Shape(g, l) && v < |g|
    ensures Shape(g, r)
  {
    if l.count[v] >= |g| then
      if l.visited[v] then l else Report(l, Extract(g, maxHops, v, l.pred))
    else if l.inQueue[v] then l
    else l.(queue := Push(l.dist, l.queue, v), inQueue := l.inQueue[v := true])
  }

  /** One edge of `u`. */
  ghost function Relax(g: Graph, maxHops: nat, s: State, u: nat, e: Edge): (r: State)
    requires Shape(g, s) && u < |g| && e.to < |g|
    ensures Shape(g, r)
  {
    if !Improves(s.dist, u, e) then s else Settle(g, maxHops, Label(s, u, e), e.to)
  }

  ghost function RelaxFrom(g: Graph, maxHops: nat, s: State, u: nat, i: nat): (r: State)
    requires Shape(g, s) && u < |g| && i <= |g[u]|
    ensures Shape(g, r)
    decreases |g[u]| - i
  {
    if i == |g[u]| then s else RelaxFrom(g, maxHops, Relax(g, maxHops, s, u, g[u][i]), u, i + 1)
  }

  function Pop(s: State): State
    requires s.queue != [] && s.queue[0] < |s.inQueue|
  {
    s.(queue := s.queue[1..], inQueue := s.inQueue[s.queue[0] := false])
  }

  /** How many relaxations, over all vertices, can still put a vertex into the queue. */
  ghost function Budget(count: seq<nat>, n: nat): nat {
    if count == [] then 0
    else
      var c := count[|count| - 1];
      Budget(count[..|count| - 1], n) + if c + 1 < n then n - 1 - c else 0
  }

  lemma {:induction false} BudgetSpent(count: seq<nat>, n: nat, v: nat)
    requires v < |count|
    ensures Budget(count[v := count[v] + 1], n) + (if count[v] + 1 < n then 1 else 0) == Budget(count, n)
  {
    var m := |count| - 1;
    var count' := count[v := count[v] + 1];
    if v == m {
      assert count'[..m] == count[..m];
    } else {
      BudgetSpent(count[..m], n, v);
      assert count'[..m] == count[..m][v := count[..m][v] + 1];
    }
  }

  lemma SettleSpends(g: Graph, maxHops: nat, l: State, v: nat)
    requires Shape(g, l) && v < |g|
    ensures var r := Settle(g, maxHops, l, v);
            r.count == l.count && |r.queue| <= |l.queue| + if l.count[v] < |g| then 1 else 0
  {
  }

  lemma RelaxSpends(g: Graph, maxHops: nat, s: State, u: nat, e: Edge)
    requires Shape(g, s) && u < |g| && e.to < |g|
    ensures var r := Relax(g, maxHops, s, u, e);
            |r.queue| + Budget(r.count, |g|) <= |s.queue| + Budget(s.count, |g|)
  {
    if Improves(s.dist, u, e) {
      var l := Label(s, u, e);
      SettleSpends(g, maxHops, l, e.to);
      assert Budget(l.count, |g|) + (if l.count[e.to] < |g| then 1 else 0) == Budget(s.count, |g|) by {
        BudgetSpent(s.count, |g|, e.to);
      }
    }
  }

  lemma {:induction false} RelaxFromSpends(g: Graph, maxHops: nat, s: State, u: nat, i: nat)
    requires Shape(g, s) && u < |g| && i <= |g[u]|
    ensures var r := RelaxFrom(g, maxHops, s, u, i);
            |r.queue| + Budget(r.count, |g|) <= |s.queue| + Budget(s.count, |g|)
    decreases |g[u]| - i
  {
    if i < |g[u]| {
      RelaxSpends(g, maxHops, s, u, g[u][i]);
      RelaxFromSpends(g, maxHops, Relax(g, maxHops, s, u, g[u][i]), u, i + 1);
    }
  }

  /** The whole search; `clock(i)` is the time elapsed, in microseconds, when the `i`-th vertex is taken. */
  ghost function Search(g: Graph, maxHops: nat, maxTimeUs: nat, clock: nat -> nat, s: State, pops: nat): (r: Outcome)
    requires Shape(g, s)
    ensures Shape(g, r.state)
    decreases |s.queue| + Budget(s.count, |g|)
  {
    if s.queue == [] then Outcome(s, false, pops)
    else if clock(pops) > maxTimeUs then Outcome(Pop(s), true, pops + 1)
    else
      RelaxFromSpends(g, maxHops, Pop(s), s.queue[0], 0);
      Search(g, maxHops, maxTimeUs, clock, RelaxFrom(g, maxHops, Pop(s), s.queue[0], 0), pops + 1)
  }

  // ----- termination

  lemma {:induction false} FreshBudget(count: seq<nat>, n: nat)
    requires forall v | 0 <= v < |count| :: count[v] == 0
    ensures n >= 1 ==> Budget(count, n) == |count| * (n - 1)
  {
    if count != [] { FreshBudget(count[..|count| - 1], n); }
  }

  /** A search that may go on takes the front of the queue, and then goes on. */
  lemma SearchStep(g: Graph, maxHops: nat, maxTimeUs: nat, clock: nat -> nat, s: State, pops: nat)
    requires Shape(g, s) && s.queue != [] && clock(pops) <= maxTimeUs
    ensures var r := RelaxFrom(g, maxHops, Pop(s), s.queue[0], 0);
            Search(g, maxHops, maxTimeUs, clock, s, pops) == Search(g, maxHops, maxTimeUs, clock, r, pops + 1)
  {
  }

  lemma NextIsSmaller(g: Graph, maxHops: nat, s: State)
    requires Shape(g, s) && s.queue != []
    ensures var r := RelaxFrom(g, maxHops, Pop(s), s.queue[0], 0);
            |r.queue| + Budget(r.count, |g|) < |s.queue| + Budget(s.count, |g|)
  {
    RelaxFromSpends(g, maxHops, Pop(s), s.queue[0], 0);
  }

  /** An end with an empty queue, or where the clock was found late at the last vertex. */
  ghost predicate EndsRightly(maxTimeUs: nat, clock: nat -> nat, r: Outcome, pops: nat) {
    && r.pops >= pops
    && if r.timedOut then r.pops > pops && clock(r.pops - 1) > maxTimeUs else r.state.queue == []
  }

  lemma {:induction false} SearchEnds(
    g: Graph, maxHops: nat, maxTimeUs: nat, clock: nat -> nat, s: State, pops: nat)
    requires Shape(g, s)
    ensures EndsRightly(maxTimeUs, clock, Search(g, maxHops, maxTimeUs, clock, s, pops), pops)
    decreases |s.queue| + Budget(s.count, |g|)
  {
    if s.queue == [] {
    } else if clock(pops) > maxTimeUs {
    } else {
      var r := RelaxFrom(g, maxHops, Pop(s), s.queue[0], 0);
      SearchStep(g, maxHops, maxTimeUs, clock, s, pops);
      NextIsSmaller(g, maxHops, s);
      SearchEnds(g, maxHops, maxTimeUs, clock, r, pops + 1);
    }
  }

  /** The search has taken no vertex behind `k`, and the one at `k` only to find the clock late. */
  ghost predicate EndedBy(r: Outcome, k: nat) {
    r.pops <= if r.timedOut then k + 1 else k
  }

  lemma EmptyEnds(g: Graph, maxHops: nat, maxTimeUs: nat, clock: nat -> nat, s: State, pops: nat)
    requires Shape(g, s) && s.queue == []
    ensures Search(g, maxHops, maxTimeUs, clock, s, pops) == Outcome(s, false, pops)
  {
  }

  lemma LateNowEnds(g: Graph, maxHops: nat, maxTimeUs: nat, clock: nat -> nat, s: State, pops: nat)
    requires Shape(g, s) && s.queue != [] && clock(pops) > maxTimeUs
    ensures Search(g, maxHops, maxTimeUs, clock, s, pops) == Outcome(Pop(s), true, pops + 1)
  {
  }

  /** At every vertex from which the search went on, the clock was in time. */
  ghost predicate WentOnInTime(maxTimeUs: nat, clock: nat -> nat, r: Outcome, pops: nat) {
    forall k: nat | pops <= k < (if r.timedOut then r.pops - 1 else r.pops) :: clock(k) <= maxTimeUs
  }

  lemma OneMoreInTime(maxTimeUs: nat, clock: nat -> nat, r: Outcome, pops: nat)
    requires WentOnInTime(maxTimeUs, clock, r, pops + 1) && clock(pops) <= maxTimeUs
    ensures WentOnInTime(maxTimeUs, clock, r, pops)
  {
  }

  lemma {:induction false} SearchGoesInTime(
    g: Graph, maxHops: nat, maxTimeUs: nat, clock: nat -> nat, s: State, pops: nat)
    requires Shape(g, s)
    ensures WentOnInTime(maxTimeUs, clock, Search(g, maxHops, maxTimeUs, clock, s, pops), pops)
    decreases |s.queue| + Budget(s.count, |g|)
  {
    if s.queue == [] {
      EmptyEnds(g, maxHops, maxTimeUs, clock, s, pops);
    } else if clock(pops) > maxTimeUs {
      LateNowEnds(g, maxHops, maxTimeUs, clock, s, pops);
    } else {
      var r := RelaxFrom(g, maxHops, Pop(s), s.queue[0], 0);
      SearchStep(g, maxHops, maxTimeUs, clock, s, pops);
      NextIsSmaller(g, maxHops, s);
      SearchGoesInTime(g, maxHops, maxTimeUs, clock, r, pops + 1);
      OneMoreInTime(maxTimeUs, clock, Search(g, maxHops, maxTimeUs, clock, r, pops + 1), pops);
    }
  }

  /** So a late clock ends the search at the next vertex. */
  lemma LateClockEnds(g: Graph, maxHops: nat, maxTimeUs: nat, clock: nat -> nat, s: State, pops: nat, k: nat)
    requires Shape(g, s) && k >= pops && clock(k) > maxTimeUs
    ensures EndedBy(Search(g, maxHops, maxTimeUs, clock, s, pops), k)
  {
    SearchGoesInTime(g, maxHops, maxTimeUs, clock, s, pops);
  }

  ghost predicate NeverLate(clock: nat -> nat, maxTimeUs: nat) {
    forall i: nat :: clock(i) <= maxTimeUs
  }

  lemma {:induction false} OnlyClockStops(
    g: Graph, maxHops: nat, maxTimeUs: nat, clock: nat -> nat, s: State, pops: nat)
    requires Shape(g, s) && NeverLate(clock, maxTimeUs)
    ensures !Search(g, maxHops, maxTimeUs, clock, s, pops).timedOut
    decreases |s.queue| + Budget(s.count, |g|)
  {
    if s.queue != [] {
      SearchStep(g, maxHops, maxTimeUs, clock, s, pops);
      NextIsSmaller(g, maxHops, s);
      OnlyClockStops(g, maxHops, maxTimeUs, clock, RelaxFrom(g, maxHops, Pop(s), s.queue[0], 0), pops + 1);
    }
  }

  /** The search takes at most the queued vertices plus one per unit of budget, whatever the clock does. */
  lemma {:induction false} PopsAreBounded(
    g: Graph, maxHops: nat, maxTimeUs: nat, clock: nat -> nat, s: State, pops: nat)
    requires Shape(g, s)
    ensures Search(g, maxHops, maxTimeUs, clock, s, pops).pops <= pops + |s.queue| + Budget(s.count, |g|)
    ensures NeverLate(clock, maxTimeUs) ==> !Search(g, maxHops, maxTimeUs, clock, s, pops).timedOut
    decreases |s.queue| + Budget(s.count, |g|)
  {
    if NeverLate(clock, maxTimeUs) { OnlyClockStops(g, maxHops, maxTimeUs, clock, s, pops); }
    if s.queue != [] && clock(pops) <= maxTimeUs {
      SearchStep(g, maxHops, maxTimeUs, clock, s, pops);
      NextIsSmaller(g, maxHops, s);
      PopsAreBounded(g, maxHops, maxTimeUs, clock, RelaxFrom(g, maxHops, Pop(s), s.queue[0], 0), pops + 1);
    } else if s.queue != [] {
      LateNowEnds(g, maxHops, maxTimeUs, clock, s, pops);
    }
  }

  // ----- what every step keeps

  ghost predicate AttainedBy(g: Graph, seeds: set<nat>, v: nat, d: real, s: nat, es: seq<Edge>) {
    s in seeds && IsWalk(g, s, es, v) && Weight(es) == d
  }

  /** Some walk from a seed to `v` weighs exactly `d`. */
  ghost predicate Attained(g: Graph, seeds: set<nat>, v: nat, d: real) {
    exists s: nat, es: seq<Edge> :: AttainedBy(g, seeds, v, d, s, es)
  }

  /** Seeds are labelled at most zero, and every label is attained. */
  ghost predicate Attaining(g: Graph, seeds: set<nat>, dist: Dists) {
    && |dist| == |g|
    && (forall v | v in seeds && v < |g| :: dist[v].Some? && dist[v].value <= 0.0)
    && (forall v | 0 <= v < |g| && dist[v].Some? :: Attained(g, seeds, v, dist[v].value))
  }

  /** A set queue flag is right; a clear one may be wrong when seeds repeat. */
  ghost predicate FlagsHold(s: State) {
    forall v | 0 <= v < |s.inQueue| && s.inQueue[v] :: v in s.queue
  }

  /** The vertex lies on the path of a reported cycle. */
  ghost predicate OnReported(cycles: seq<DetectedCycle>, v: nat) {
    exists c | c in cycles :: v in c.path
  }

  /** Exactly the vertices of reported cycles are marked. */
  ghost predicate MarksHold(s: State) {
    forall v | 0 <= v < |s.visited| :: s.visited[v] <==> OnReported(s.cycles, v)
  }

  ghost predicate Inv(g: Graph, maxHops: nat, seeds: set<nat>, s: State) {
    && Shape(g, s)
    && Consistent(g, s.dist, s.pred)
    && CyclesGain(g, s.pred)
    && Attaining(g, seeds, s.dist)
    && FlagsHold(s)
    && MarksHold(s)
    && (forall c | c in s.cycles :: Profitable(g, maxHops, c))
  }

  lemma ExtensionIsAttained(g: Graph, seeds: set<nat>, u: nat, d: real, e: Edge)
    requires Attained(g, seeds, u, d) && u < |g| && e in g[u] && e.to < |g| && !e.filtered
    ensures Attained(g, seeds, e.to, d + e.weight)
  {
    var x: nat, es: seq<Edge> :| AttainedBy(g, seeds, u, d, x, es);
    WalkExtends(g, x, es, u, e);
    assert AttainedBy(g, seeds, e.to, d + e.weight, x, es + [e]);
  }

  lemma LabelIsAttained(g: Graph, seeds: set<nat>, dist: Dists, u: nat, e: Edge)
    requires Attaining(g, seeds, dist) && u < |g| && e in g[u] && e.to < |g| && Improves(dist, u, e)
    ensures Attaining(g, seeds, dist[e.to := Via(dist, u, e)])
  {
    assert Attained(g, seeds, u, dist[u].value);
    ExtensionIsAttained(g, seeds, u, dist[u].value, e);
    var dist' := dist[e.to := Via(dist, u, e)];
    forall v | 0 <= v < |g| && dist'[v].Some? ensures Attained(g, seeds, v, dist'[v].value) {
      if v != e.to { assert dist'[v] == dist[v]; }
    }
  }

  lemma LabelKeepsInv(g: Graph, maxHops: nat, seeds: set<nat>, s: State, u: nat, e: Edge)
    requires Inv(g, maxHops, seeds, s) && u < |g| && e in g[u] && e.to < |g| && Improves(s.dist, u, e)
    ensures Inv(g, maxHops, seeds, Label(s, u, e))
  {
    var l := Label(s, u, e);
    assert Shape(g, l) && FlagsHold(l) && l.cycles == s.cycles && MarksHold(l);
    assert Consistent(g, l.dist, l.pred) by { LabelsStayConsistent(g, s.dist, s.pred, u, e); }
    assert CyclesGain(g, l.pred) by { CyclesKeepGaining(g, s.dist, s.pred, u, e); }
    assert Attaining(g, seeds, l.dist) by { LabelIsAttained(g, seeds, s.dist, u, e); }
  }

  /** Queueing keeps what was queued and what the flags say. */
  lemma PushKeepsFlags(s: State, v: nat)
    requires FlagsHold(s) && v < |s.inQueue| == |s.dist| && forall i | 0 <= i < |s.queue| :: s.queue[i] < |s.dist|
    ensures var q := Push(s.dist, s.queue, v);
            && v in q && (forall x | x in s.queue :: x in q)
            && FlagsHold(s.(queue := q, inQueue := s.inQueue[v := true]))
  {
  }

  lemma OneMoreReported(cycles: seq<DetectedCycle>, c: DetectedCycle, v: nat)
    ensures OnReported(cycles + [c], v) <==> OnReported(cycles, v) || v in c.path
  {
    if d :| d in cycles && v in d.path { assert d in cycles + [c]; }
    if v in c.path { assert c in cycles + [c]; }
  }

  lemma ReportKeepsMarks(s: State, r: Option<DetectedCycle>)
    requires MarksHold(s)
    ensures MarksHold(Report(s, r))
  {
    if r.Some? {
      forall v | 0 <= v < |s.visited| ensures Report(s, r).visited[v] <==> OnReported(s.cycles + [r.value], v) {
        OneMoreReported(s.cycles, r.value, v);
      }
    }
  }

  lemma ReportKeepsInv(g: Graph, maxHops: nat, seeds: set<nat>, l: State, v: nat)
    requires Inv(g, maxHops, seeds, l) && v < |g|
    ensures Inv(g, maxHops, seeds, Report(l, Extract(g, maxHops, v, l.pred)))
  {
    ReportKeepsMarks(l, Extract(g, maxHops, v, l.pred));
    if Extract(g, maxHops, v, l.pred).Some? { ExtractedIsProfitable(g, maxHops, v, l.pred); }
  }

  lemma QueueKeepsInv(g: Graph, maxHops: nat, seeds: set<nat>, l: State, v: nat)
    requires Inv(g, maxHops, seeds, l) && v < |g|
    ensures Inv(g, maxHops, seeds, l.(queue := Push(l.dist, l.queue, v), inQueue := l.inQueue[v := true]))
  {
    PushKeepsFlags(l, v);
  }

  lemma SettleKeepsInv(g: Graph, maxHops: nat, seeds: set<nat>, l: State, v: nat)
    requires Inv(g, maxHops, seeds, l) && v < |g|
    ensures Inv(g, maxHops, seeds, Settle(g, maxHops, l, v))
  {
    if l.count[v] >= |g| {
      ReportKeepsInv(g, maxHops, seeds, l, v);
    } else {
      QueueKeepsInv(g, maxHops, seeds, l, v);
    }
  }

  lemma RelaxKeepsInv(g: Graph, maxHops: nat, seeds: set<nat>, s: State, u: nat, e: Edge)
    requires Inv(g, maxHops, seeds, s) && u < |g| && e in g[u] && e.to < |g|
    ensures Inv(g, maxHops, seeds, Relax(g, maxHops, s, u, e))
  {
    if Improves(s.dist, u, e) {
      LabelKeepsInv(g, maxHops, seeds, s, u, e);
      SettleKeepsInv(g, maxHops, seeds, Label(s, u, e), e.to);
    }
  }

  /**
   Small labels first: a relaxed vertex below the limit that was not queued joins the queue, in
   front of it exactly when its new label is below that of the front, and else behind it.
   */
  lemma RelaxedVertexQueues(g: Graph, maxHops: nat, s: State, u: nat, e: Edge)
    requires Shape(g, s) && u < |g| && e.to < |g| && Improves(s.dist, u, e)
    requires s.count[e.to] + 1 < |g| && !s.inQueue[e.to]
    ensures var r := Relax(g, maxHops, s, u, e);
            && r.dist[e.to] == Some(s.dist[u].value + e.weight)
            && if s.queue != [] && (r.dist[s.queue[0]].None? || r.dist[e.to].value < r.dist[s.queue[0]].value)
               then r.queue == [e.to] + s.queue
               else r.queue == s.queue + [e.to]
  {
  }

  /** Every vertex but `u` is queued, or over the limit, or has no improving edge left. */
  ghost predicate SettledBut(g: Graph, s: State, u: int)
    requires Shape(g, s)
  {
    forall x, i | 0 <= x < |g| && x != u && x !in s.queue && s.count[x] < |g| && 0 <= i < |g[x]| ::
      !Improves(s.dist, x, g[x][i])
  }

  ghost predicate SettledUpTo(g: Graph, s: State, u: nat, i: nat)
    requires Shape(g, s) && u < |g| && i <= |g[u]|
  {
    u in s.queue || s.count[u] >= |g| || forall j | 0 <= j < i :: !Improves(s.dist, u, g[u][j])
  }

  /** A relaxed vertex is queued or over the limit; no queued vertex is lost. */
  lemma RelaxQueues(g: Graph, maxHops: nat, s: State, u: nat, e: Edge)
    requires Shape(g, s) && FlagsHold(s) && u < |g| && e.to < |g|
    ensures var r := Relax(g, maxHops, s, u, e);
            && (forall x | x in s.queue :: x in r.queue)
            && (Improves(s.dist, u, e) ==> e.to in r.queue || r.count[e.to] >= |g|)
  {
  }

  /** A smaller label at `e.to` makes no other vertex improve anything new. */
  lemma ImprovesLess(dist: Dists, u: nat, e: Edge, x: nat, f: Edge)
    requires u < |dist| && e.to < |dist| && x < |dist| && f.to < |dist| && Improves(dist, u, e)
    requires !Improves(dist, x, f) && x != e.to
    ensures !Improves(dist[e.to := Via(dist, u, e)], x, f)
  {
  }

  lemma RelaxSettles(g: Graph, maxHops: nat, s: State, u: nat, i: nat)
    requires Shape(g, s) && FlagsHold(s) && u < |g| && i < |g[u]|
    requires SettledBut(g, s, u) && SettledUpTo(g, s, u, i)
    ensures var r := Relax(g, maxHops, s, u, g[u][i]);
            SettledBut(g, r, u) && SettledUpTo(g, r, u, i + 1)
  {
    var e := g[u][i];
    var r := Relax(g, maxHops, s, u, e);
    RelaxQueues(g, maxHops, s, u, e);
    if Improves(s.dist, u, e) {
      assert r.dist == s.dist[e.to := Via(s.dist, u, e)];
      assert r.count == s.count[e.to := s.count[e.to] + 1];
      forall x, j | 0 <= x < |g| && x != u && x !in r.queue && r.count[x] < |g| && 0 <= j < |g[x]|
        ensures !Improves(r.dist, x, g[x][j])
      {
        ImprovesLess(s.dist, u, e, x, g[x][j]);
      }
      if u !in r.queue && r.count[u] < |g| {
        forall j | 0 <= j < i ensures !Improves(r.dist, u, g[u][j]) { ImprovesLess(s.dist, u, e, u, g[u][j]); }
      }
    }
  }

  lemma RelaxStep(g: Graph, maxHops: nat, seeds: set<nat>, s: State, u: nat, i: nat)
    requires Inv(g, maxHops, seeds, s) && u < |g| && i < |g[u]|
    requires SettledBut(g, s, u) && SettledUpTo(g, s, u, i)
    ensures var r := Relax(g, maxHops, s, u, g[u][i]);
            Inv(g, maxHops, seeds, r) && SettledBut(g, r, u) && SettledUpTo(g, r, u, i + 1)
  {
    RelaxKeepsInv(g, maxHops, seeds, s, u, g[u][i]);
    RelaxSettles(g, maxHops, s, u, i);
  }

  lemma AllSettled(g: Graph, s: State, u: nat)
    requires Shape(g, s) && u < |g| && SettledBut(g, s, u) && SettledUpTo(g, s, u, |g[u]|)
    ensures SettledBut(g, s, -1)
  {
  }

  lemma {:induction false} RelaxFromKeeps(g: Graph, maxHops: nat, seeds: set<nat>, s: State, u: nat, i: nat)
    requires Inv(g, maxHops, seeds, s) && u < |g| && i <= |g[u]|
    requires SettledBut(g, s, u) && SettledUpTo(g, s, u, i)
    ensures var r := RelaxFrom(g, maxHops, s, u, i);
            Inv(g, maxHops, seeds, r) && SettledBut(g, r, -1)
    decreases |g[u]| - i
  {
    if i == |g[u]| {
      AllSettled(g, s, u);
    } else {
      var r := Relax(g, maxHops, s, u, g[u][i]);
      RelaxStep(g, maxHops, seeds, s, u, i);
      RelaxFromKeeps(g, maxHops, seeds, r, u, i + 1);
      assert RelaxFrom(g, maxHops, s, u, i) == RelaxFrom(g, maxHops, r, u, i + 1);
    }
  }

  lemma PopKeeps(g: Graph, maxHops: nat, seeds: set<nat>, s: State)
    requires Inv(g, maxHops, seeds, s) && SettledBut(g, s, -1) && s.queue != []
    ensures Inv(g, maxHops, seeds, Pop(s)) && SettledBut(g, Pop(s), s.queue[0])
  {
  }

  /** The invariant holds when the search ends, and after a complete search so does settledness. */
  lemma {:induction false} SearchKeeps(
    g: Graph, maxHops: nat, maxTimeUs: nat, clock: nat -> nat, seeds: set<nat>, s: State, pops: nat)
    requires Inv(g, maxHops, seeds, s) && SettledBut(g, s, -1)
    ensures var r := Search(g, maxHops, maxTimeUs, clock, s, pops);
            && Inv(g, maxHops, seeds, r.state)
            && (!r.timedOut ==> r.state.queue == [] && SettledBut(g, r.state, -1))
    decreases |s.queue| + Budget(s.count, |g|)
  {
    if s.queue != [] {
      PopKeeps(g, maxHops, seeds, s);
      if clock(pops) <= maxTimeUs {
        RelaxFromKeeps(g, maxHops, seeds, Pop(s), s.queue[0], 0);
        RelaxFromSpends(g, maxHops, Pop(s), s.queue[0], 0);
        SearchKeeps(g, maxHops, maxTimeUs, clock, seeds, RelaxFrom(g, maxHops, Pop(s), s.queue[0], 0), pops + 1);
      }
    }
  }

  // ----- certificates

  /** No unfiltered edge out of a reached vertex improves a label. */
  ghost predicate Certificate(g: Graph, dist: Dists) {
    && WellFormed(g) && |dist| == |g|
    && (forall x, i | 0 <= x < |g| && 0 <= i < |g[x]| :: !Improves(dist, x, g[x][i]))
  }

  /** Under a certificate a label exceeds no walk weight by more than the tolerance per hop. */
  lemma {:induction false} CertificateBoundsWalks(g: Graph, dist: Dists, s: nat, es: seq<Edge>, t: nat)
    requires Certificate(g, dist) && IsWalk(g, s, es, t) && dist[s].Some?
    ensures t < |g| && dist[t].Some?
    ensures dist[t].value <= dist[s].value + Weight(es) + |es| as real * EPS
    decreases |es|
  {
    if es != [] {
      var i :| 0 <= i < |g[s]| && g[s][i] == es[0];
      assert !Improves(dist, s, g[s][i]);
      CertificateBoundsWalks(g, dist, es[0].to, es[1..], t);
    }
  }
}
