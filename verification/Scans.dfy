/**
 The two scans of the detector as functions: where each starts, and what they
 guarantee for every graph, seed list, hop limit and clock: soundness of reports,
 completeness up to the relaxation limit, what the labels mean, and how long the
 scans can take.
 */
module Scans {
  import opened Wrappers
  import opened PriceGraph
  import opened Predecessors
  import opened CycleExtraction
  import opened CycleSearch
  import StableSort

  datatype BellmanFord = BellmanFord(maxHops: nat, maxTimeUs: nat)

  predicate ByWeight(a: DetectedCycle, b: DetectedCycle) {
    a.totalWeight <= b.totalWeight
  }

  // ----- where the scans start

  /** The affected vertices that exist, in order and with repetitions. */
  function ValidSeeds(affected: seq<nat>, n: nat): (r: seq<nat>)
    ensures forall i | 0 <= i < |r| :: r[i] < n
    ensures |r| <= |affected|
  {
    if affected == [] then []
    else
      var m := |affected| - 1;
      ValidSeeds(affected[..m], n) + if affected[m] < n then [affected[m]] else []
  }

  lemma {:induction false} ValidSeedsAreThoseInRange(affected: seq<nat>, n: nat, v: nat)
    ensures v in ValidSeeds(affected, n) <==> v in affected && v < n
  {
    if affected != [] {
      var m := |affected| - 1;
      ValidSeedsAreThoseInRange(affected[..m], n, v);
      assert affected == affected[..m] + [affected[m]];
    }
  }

  /** The seeds labelled zero and queued. */
  function SeededStart(n: nat, queue: seq<nat>): State {
    State(
      seq(n, i requires 0 <= i => if i in queue then Some(0.0) else None), seq(n, _ => None),
      seq(n, i requires 0 <= i => i in queue), seq(n, _ => 0), queue, seq(n, _ => false), [])
  }

  /** For the full scan every vertex is a seed, as if joined to a virtual source. */
  function Everything(n: nat): (r: seq<nat>)
    ensures |r| == n && forall i | 0 <= i < n :: r[i] == i
    ensures forall i: nat | i < n :: i in r
  {
    var r := seq(n, i requires 0 <= i => i as nat);
    assert forall i: nat | i < n :: i in r by {
      forall i: nat | i < n ensures i in r { assert r[i] == i; }
    }
    r
  }

  /** The shared search from any list of existing seeds. */
  ghost function Scan(bf: BellmanFord, g: Graph, clock: nat -> nat, seeds: seq<nat>): Outcome
    requires WellFormed(g) && forall i | 0 <= i < |seeds| :: seeds[i] < |g|
  {
    Search(g, bf.maxHops, bf.maxTimeUs, clock, SeededStart(|g|, seeds), 0)
  }

  ghost function FullScan(bf: BellmanFord, g: Graph, clock: nat -> nat): Outcome
    requires WellFormed(g)
  {
    Scan(bf, g, clock, Everything(|g|))
  }

  ghost function AffectedScan(bf: BellmanFord, g: Graph, affected: seq<nat>, clock: nat -> nat): Outcome
    requires WellFormed(g)
  {
    Scan(bf, g, clock, ValidSeeds(affected, |g|))
  }

  ghost function SeedSet(queue: seq<nat>): set<nat> {
    set v | v in queue
  }

  /** Without predecessors, zero labels exactly on the seeds satisfy the label invariants. */
  lemma StartIsConsistent(g: Graph, dist: Dists, seeds: set<nat>)
    requires WellFormed(g) && |dist| == |g|
    requires forall v | 0 <= v < |g| :: dist[v] == if v in seeds then Some(0.0) else None
    ensures var pred: Preds := seq(|g|, _ => None);
            Consistent(g, dist, pred) && CyclesGain(g, pred) && Attaining(g, seeds, dist)
  {
    var pred: Preds := seq(|g|, _ => None);
    forall v: nat, k: nat ensures GainsFrom(g, pred, v, k) {
      if v < |g| && k >= 1 { assert Back(pred, v, k).None?; }
    }
    forall v | 0 <= v < |g| && dist[v].Some? ensures Attained(g, seeds, v, dist[v].value) {
      assert AttainedBy(g, seeds, v, 0.0, v, []);
    }
  }

  lemma SeededStartIsGood(g: Graph, maxHops: nat, queue: seq<nat>)
    requires WellFormed(g) && forall i | 0 <= i < |queue| :: queue[i] < |g|
    ensures Inv(g, maxHops, SeedSet(queue), SeededStart(|g|, queue))
    ensures SettledBut(g, SeededStart(|g|, queue), -1)
  {
    StartIsConsistent(g, SeededStart(|g|, queue).dist, SeedSet(queue));
  }

  lemma ScanKeeps(bf: BellmanFord, g: Graph, clock: nat -> nat, seeds: seq<nat>)
    requires WellFormed(g) && forall i | 0 <= i < |seeds| :: seeds[i] < |g|
    ensures var r := Scan(bf, g, clock, seeds);
            && Inv(g, bf.maxHops, SeedSet(seeds), r.state)
            && (!r.timedOut ==> r.state.queue == [] && SettledBut(g, r.state, -1))
  {
    SeededStartIsGood(g, bf.maxHops, seeds);
    SearchKeeps(g, bf.maxHops, bf.maxTimeUs, clock, SeedSet(seeds), SeededStart(|g|, seeds), 0);
  }

  // ----- soundness

  /** A profitable report is a closed walk that gains more than the tolerance. */
  lemma ProfitableIsLoop(g: Graph, maxHops: nat, c: DetectedCycle)
    requires WellFormed(g) && Profitable(g, maxHops, c)
    ensures exists es | IsWalk(g, c.path[0], es, c.path[0]) ::
              |es| == |c.path| - 1 && Weight(es) == c.totalWeight < -EPS
    ensures !NoProfitableLoop(g)
  {
    var es := PathHasWalk(g, c.path, |c.path| - 1);
    assert IsWalk(g, c.path[0], es, c.path[0]);
  }

  /** Everything a scan reports is a profitable simple cycle, wherever the clock stopped it. */
  lemma ScanIsSound(bf: BellmanFord, g: Graph, clock: nat -> nat, seeds: seq<nat>)
    requires WellFormed(g) && forall i | 0 <= i < |seeds| :: seeds[i] < |g|
    ensures forall c | c in Scan(bf, g, clock, seeds).state.cycles :: Profitable(g, bf.maxHops, c)
    ensures NoProfitableLoop(g) ==> Scan(bf, g, clock, seeds).state.cycles == []
  {
    ScanKeeps(bf, g, clock, seeds);
    var cycles := Scan(bf, g, clock, seeds).state.cycles;
    if NoProfitableLoop(g) && cycles != [] {
      ProfitableIsLoop(g, bf.maxHops, cycles[0]);
    }
  }

  /** The result of either scan: sorted by weight, the same reports, each one profitable. */
  lemma ResultIsSound(bf: BellmanFord, g: Graph, clock: nat -> nat, seeds: seq<nat>)
    requires WellFormed(g) && forall i | 0 <= i < |seeds| :: seeds[i] < |g|
    ensures var found := Scan(bf, g, clock, seeds).state.cycles;
            var result := StableSort.Sort(found, ByWeight);
            && multiset(result) == multiset(found)
            && StableSort.SortedBy(result, ByWeight)
            && (forall c | c in result :: Profitable(g, bf.maxHops, c))
            && (NoProfitableLoop(g) ==> result == [])
  {
    var found := Scan(bf, g, clock, seeds).state.cycles;
    var result := StableSort.Sort(found, ByWeight);
    ScanIsSound(bf, g, clock, seeds);
    StableSort.SortIsStable(found, ByWeight);
    StableSort.SortPermutes(found, ByWeight);
    assert forall c | c in result :: c in multiset(result);
    assert |result| == |multiset(result)|;
  }

  // ----- completeness

  /** Some vertex was relaxed as often as there are vertices. */
  ghost predicate LimitHit(g: Graph, s: State)
    requires Shape(g, s)
  {
    exists v :: 0 <= v < |g| && s.count[v] >= |g|
  }

  /** A complete search that never hit the limit leaves a certificate. */
  lemma ScanCertifies(bf: BellmanFord, g: Graph, clock: nat -> nat, seeds: seq<nat>)
    requires WellFormed(g) && forall i | 0 <= i < |seeds| :: seeds[i] < |g|
    requires var r := Scan(bf, g, clock, seeds); !r.timedOut && !LimitHit(g, r.state)
    ensures Certificate(g, Scan(bf, g, clock, seeds).state.dist)
  {
    ScanKeeps(bf, g, clock, seeds);
  }

  /**
   Either the clock ran out, or the limit was hit, or no closed walk reachable from the
   seeds gains more than the tolerance per hop.
   */
  lemma ScanIsCompleteOrLimited(bf: BellmanFord, g: Graph, clock: nat -> nat, seeds: seq<nat>,
                                s: nat, lead: seq<Edge>, t: nat, loop: seq<Edge>)
    requires WellFormed(g) && forall i | 0 <= i < |seeds| :: seeds[i] < |g|
    requires s in seeds && IsWalk(g, s, lead, t) && IsWalk(g, t, loop, t)
    ensures var r := Scan(bf, g, clock, seeds);
            r.timedOut || LimitHit(g, r.state) || Weight(loop) >= -(|loop| as real * EPS)
  {
    var r := Scan(bf, g, clock, seeds);
    if !r.timedOut && !LimitHit(g, r.state) {
      ScanKeeps(bf, g, clock, seeds);
      ScanCertifies(bf, g, clock, seeds);
      CertificateBoundsWalks(g, r.state.dist, s, lead, t);
      CertificateBoundsWalks(g, r.state.dist, t, loop, t);
    }
  }

  /** For the full scan every vertex is a seed, so this covers every closed walk of the graph. */
  lemma FullScanIsCompleteOrLimited(bf: BellmanFord, g: Graph, clock: nat -> nat, t: nat, loop: seq<Edge>)
    requires WellFormed(g) && IsWalk(g, t, loop, t)
    ensures var r := FullScan(bf, g, clock);
            r.timedOut || LimitHit(g, r.state) || Weight(loop) >= -(|loop| as real * EPS)
  {
    ScanIsCompleteOrLimited(bf, g, clock, Everything(|g|), t, [], t, loop);
  }

  /** The partial scan covers every closed walk that a walk from an existing affected vertex reaches. */
  lemma AffectedScanIsCompleteOrLimited(bf: BellmanFord, g: Graph, clock: nat -> nat, affected: seq<nat>,
                                        s: nat, lead: seq<Edge>, t: nat, loop: seq<Edge>)
    requires WellFormed(g) && s in affected && IsWalk(g, s, lead, t) && IsWalk(g, t, loop, t)
    ensures var r := AffectedScan(bf, g, affected, clock);
            r.timedOut || LimitHit(g, r.state) || Weight(loop) >= -(|loop| as real * EPS)
  {
    ValidSeedsAreThoseInRange(affected, |g|, s);
    ScanIsCompleteOrLimited(bf, g, clock, ValidSeeds(affected, |g|), s, lead, t, loop);
  }

  // ----- labels

  /**
   The label of a vertex is at every end the weight of an actual walk from a seed; at a
   complete end below the limit it exceeds no such walk by more than the tolerance per hop.
   */
  lemma LabelsAreWalkWeights(
    bf: BellmanFord, g: Graph, clock: nat -> nat, seeds: seq<nat>, s: nat, es: seq<Edge>, v: nat)
    requires WellFormed(g) && forall i | 0 <= i < |seeds| :: seeds[i] < |g|
    requires v < |g|
    ensures var r := Scan(bf, g, clock, seeds);
            && (r.state.dist[v].Some? ==> Attained(g, SeedSet(seeds), v, r.state.dist[v].value))
            && (!r.timedOut && !LimitHit(g, r.state) && s in seeds && IsWalk(g, s, es, v) ==>
                  r.state.dist[v].Some? && r.state.dist[v].value <= Weight(es) + |es| as real * EPS)
  {
    var r := Scan(bf, g, clock, seeds);
    ScanKeeps(bf, g, clock, seeds);
    if !r.timedOut && !LimitHit(g, r.state) && s in seeds && IsWalk(g, s, es, v) {
      ScanCertifies(bf, g, clock, seeds);
      CertificateBoundsWalks(g, r.state.dist, s, es, v);
    }
  }

  // ----- termination

  /** A scan takes at most its seeds, repeats counted, plus n(n-1) vertices; only the clock cuts it shorter. */
  lemma {:induction false} ScanIsShort(bf: BellmanFord, g: Graph, clock: nat -> nat, seeds: seq<nat>)
    requires WellFormed(g) && g != [] && forall i | 0 <= i < |seeds| :: seeds[i] < |g|
    ensures Scan(bf, g, clock, seeds).pops <= |seeds| + |g| * (|g| - 1)
    ensures NeverLate(clock, bf.maxTimeUs) ==> !Scan(bf, g, clock, seeds).timedOut
  {
    SeededStartIsGood(g, bf.maxHops, seeds);
    PopsAreBounded(g, bf.maxHops, bf.maxTimeUs, clock, SeededStart(|g|, seeds), 0);
    FreshBudget(SeededStart(|g|, seeds).count, |g|);
  }

  lemma AffectedScanIsShort(bf: BellmanFord, g: Graph, affected: seq<nat>, clock: nat -> nat)
    requires WellFormed(g) && g != []
    ensures AffectedScan(bf, g, affected, clock).pops <= |ValidSeeds(affected, |g|)| + |g| * (|g| - 1)
    ensures NeverLate(clock, bf.maxTimeUs) ==> !AffectedScan(bf, g, affected, clock).timedOut
  {
    ScanIsShort(bf, g, clock, ValidSeeds(affected, |g|));
  }

  lemma FullScanIsShort(bf: BellmanFord, g: Graph, clock: nat -> nat)
    requires WellFormed(g)
    ensures FullScan(bf, g, clock).pops <= |g| * |g|
    ensures NeverLate(clock, bf.maxTimeUs) ==> !FullScan(bf, g, clock).timedOut
  {
    if g != [] {
      ScanIsShort(bf, g, clock, Everything(|g|));
      assert |g| + |g| * (|g| - 1) == |g| * |g|;
    }
  }
}
