/**
 The price graph as the cycle detector sees it: numbered vertices, and for each
 one the sequence of its outgoing edges, parallel edges included.
 */
module PriceGraph {
  import opened Wrappers

  /** An edge of the price graph; `filtered` edges belong to pools below the liquidity floor. */
  datatype Edge = Edge(to: nat, weight: real, filtered: bool)

  type Graph = seq<seq<Edge>>

  predicate WellFormed(g: Graph) {
    forall u, i | 0 <= u < |g| && 0 <= i < |g[u]| :: g[u][i].to < |g|
  }

  /** The tolerance under which an improvement does not count. */
  const EPS: real := 0.0000000001

  // ----- walks

  /** `es` leads from `s` to `t` over unfiltered edges. */
  ghost predicate IsWalk(g: Graph, s: nat, es: seq<Edge>, t: nat)
    decreases |es|
  {
    && s < |g|
    && if es == [] then s == t
       else es[0] in g[s] && !es[0].filtered && IsWalk(g, es[0].to, es[1..], t)
  }

  function Weight(es: seq<Edge>): real {
    if es == [] then 0.0 else es[0].weight + Weight(es[1..])
  }

  lemma {:induction false} WalkExtends(g: Graph, s: nat, es: seq<Edge>, u: nat, e: Edge)
    requires IsWalk(g, s, es, u) && u < |g| && e in g[u] && !e.filtered && e.to < |g|
    ensures IsWalk(g, s, es + [e], e.to) && Weight(es + [e]) == Weight(es) + e.weight
    decreases |es|
  {
    if es == [] {
      assert es + [e] == [e] && [e][1..] == [];
    } else {
      WalkExtends(g, es[0].to, es[1..], u, e);
      assert (es + [e])[1..] == es[1..] + [e];
    }
  }

  /** No closed walk of unfiltered edges gains more than the tolerance. */
  ghost predicate NoProfitableLoop(g: Graph) {
    forall s, es | IsWalk(g, s, es, s) && es != [] :: Weight(es) >= -EPS
  }

  // ----- parallel edges

  predicate Connects(e: Edge, v: nat) {
    e.to == v && !e.filtered
  }

  /** The least weight among the unfiltered edges of `es` to `v`. */
  function Cheapest(es: seq<Edge>, v: nat): Option<real> {
    if es == [] then None
    else
      var m := |es| - 1;
      var best := Cheapest(es[..m], v);
      if Connects(es[m], v) && (best.None? || es[m].weight < best.value) then Some(es[m].weight) else best
  }

  lemma {:induction false} CheapestIsLeast(es: seq<Edge>, v: nat)
    ensures Cheapest(es, v).Some? <==> exists e | e in es :: Connects(e, v)
    ensures Cheapest(es, v).Some? ==> exists e | e in es :: Connects(e, v) && e.weight == Cheapest(es, v).value
    ensures forall e | e in es && Connects(e, v) :: Cheapest(es, v).value <= e.weight
  {
    if es != [] {
      var m := |es| - 1;
      CheapestIsLeast(es[..m], v);
      assert es == es[..m] + [es[m]];
      forall e | e in es ensures e in es[..m] || e == es[m] {}
      assert forall e | e in es[..m] :: e in es;
      assert es[m] in es;
    }
  }

  /** `u` has an unfiltered edge to `v`. */
  predicate HasHop(g: Graph, u: nat, v: nat)
    requires u < |g|
  {
    Cheapest(g[u], v).Some?
  }

  function HopWeight(g: Graph, u: nat, v: nat): real
    requires u < |g| && HasHop(g, u, v)
  {
    Cheapest(g[u], v).value
  }

  // ----- paths of vertices

  /** Consecutive vertices of `path` are joined by unfiltered edges. */
  predicate IsPath(g: Graph, path: seq<nat>) {
    && (forall i | 0 <= i < |path| :: path[i] < |g|)
    && (forall i | 0 <= i < |path| - 1 :: HasHop(g, path[i], path[i + 1]))
  }

  /** The weight of the first `k` hops, each over the cheapest parallel edge. */
  function PathWeight(g: Graph, path: seq<nat>, k: nat): real
    requires IsPath(g, path) && k < |path|
  {
    if k == 0 then 0.0 else PathWeight(g, path, k - 1) + HopWeight(g, path[k - 1], path[k])
  }

  /** A path of vertices is traversed by a walk with the same hops and weight. */
  lemma {:induction false} PathHasWalk(g: Graph, path: seq<nat>, k: nat) returns (es: seq<Edge>)
    requires WellFormed(g) && IsPath(g, path) && k < |path|
    ensures IsWalk(g, path[0], es, path[k]) && |es| == k && Weight(es) == PathWeight(g, path, k)
  {
    if k == 0 {
      es := [];
    } else {
      var es' := PathHasWalk(g, path, k - 1);
      var u, v := path[k - 1], path[k];
      CheapestIsLeast(g[u], v);
      assert HasHop(g, u, v);
      var e :| e in g[u] && Connects(e, v) && e.weight == Cheapest(g[u], v).value;
      WalkExtends(g, path[0], es', u, e);
      es := es' + [e];
    }
  }
}
