/**
 The collector of the best opportunities: an incremental list that must equal what
 sorting everything ever inserted would give.
 */
module TopK {
  import opened StableSort

  datatype RankedOpportunity<A> = RankedOpportunity(opportunity: A, score: real)

  /** Best first: the order of the collector. */
  predicate Better<A>(a: RankedOpportunity<A>, b: RankedOpportunity<A>) {
    a.score >= b.score
  }

  function SortBest<A>(s: seq<RankedOpportunity<A>>): seq<RankedOpportunity<A>> {
    Sort(s, Better<A>)
  }

  function Take<T>(k: nat, s: seq<T>): seq<T> {
    if |s| <= k then s else s[..k]
  }

  /** The first `k` entries of the stable best-first sort. */
  function Best<A>(k: nat, s: seq<RankedOpportunity<A>>): seq<RankedOpportunity<A>> {
    Take(k, SortBest(s))
  }

  /** What one insertion makes of the held entries. */
  function Insertion<A>(k: nat, held: seq<RankedOpportunity<A>>, opp: RankedOpportunity<A>): seq<RankedOpportunity<A>> {
    if |held| < k then SortBest(held + [opp])
    else if held != [] && opp.score > held[|held| - 1].score then SortBest(held[..|held| - 1] + [opp])
    else held
  }

  function InsertAll<A>(k: nat, opps: seq<RankedOpportunity<A>>): seq<RankedOpportunity<A>> {
    if opps == [] then [] else Insertion(k, InsertAll(k, opps[..|opps| - 1]), opps[|opps| - 1])
  }

  /** There is one place to insert at. */
  lemma OneSplit<T(!new)>(s: seq<T>, x: T, le: (T, T) -> bool, p: nat, q: nat)
    requires p <= |s| && q <= |s|
    requires forall i | 0 <= i < |s| :: le(s[i], x) <==> i < p
    requires forall i | 0 <= i < |s| :: le(s[i], x) <==> i < q
    ensures p == q
  {
    assert p < |s| ==> le(s[p], x) == (p < q);
    assert q < |s| ==> le(s[q], x) == (q < p);
  }

  /** Inserting in front of position `m` is inserting into the first `m` elements. */
  lemma InsertIntoPrefix<T(!new)>(s: seq<T>, x: T, le: (T, T) -> bool, p: nat, m: nat)
    requires TotalPreorder(le) && SortedBy(s, le) && p <= m <= |s|
    requires forall i | 0 <= i < |s| :: le(s[i], x) <==> i < p
    ensures Insert(s[..m], x, le) == s[..p] + [x] + s[p..m]
  {
    var t := s[..m];
    var q := InsertSplits(t, x, le);
    OneSplit(t, x, le, p, q);
    assert t[..p] == s[..p] && t[p..] == s[p..m];
  }

  lemma TakeSplit<T>(s: seq<T>, x: T, p: nat, k: nat)
    requires p <= |s| && 1 <= k <= |s|
    ensures (s[..p] + [x] + s[p..])[..k] == if k <= p then s[..k] else s[..p] + [x] + s[p..k - 1]
  {
  }

  /** The first `k` elements after an insertion depend on the first `k` before it only. */
  lemma InsertIntoBest<T(!new)>(s: seq<T>, x: T, le: (T, T) -> bool, k: nat)
    requires TotalPreorder(le) && SortedBy(s, le) && 1 <= k <= |s|
    ensures |Insert(s, x, le)| == |s| + 1
    ensures Insert(s, x, le)[..k] == if le(s[k - 1], x) then s[..k] else Insert(s[..k - 1], x, le)
  {
    var p := InsertSplits(s, x, le);
    assert le(s[k - 1], x) <==> k <= p;
    TakeSplit(s, x, p, k);
    if p < k { InsertIntoPrefix(s, x, le, p, k - 1); }
  }

  /** Sorting a sorted list with one element appended inserts that element. */
  lemma SortAppended<T(!new)>(s: seq<T>, x: T, le: (T, T) -> bool)
    requires SortedBy(s, le)
    ensures Sort(s + [x], le) == Insert(s, x, le)
  {
    SortedStays(s, le);
    assert (s + [x])[..|s|] == s;
  }

  /** A full collector drops the new entry or its own last one. */
  lemma InsertionWhenFull<A(!new)>(k: nat, t: seq<RankedOpportunity<A>>, opp: RankedOpportunity<A>)
    requires SortedBy(t, Better<A>) && 1 <= k <= |t|
    ensures Insertion(k, t[..k], opp) == Take(k, Insert(t, opp, Better<A>))
  {
    var held := t[..k];
    assert held[..k - 1] == t[..k - 1] && held[k - 1] == t[k - 1];
    SortAppended(t[..k - 1], opp, Better<A>);
    InsertIntoBest(t, opp, Better<A>, k);
  }

  /** Inserting into the first `k` of a sorted list gives the first `k` of inserting into all of it. */
  lemma InsertionIntoSorted<A(!new)>(k: nat, t: seq<RankedOpportunity<A>>, opp: RankedOpportunity<A>)
    requires SortedBy(t, Better<A>)
    ensures Insertion(k, Take(k, t), opp) == Take(k, Insert(t, opp, Better<A>))
  {
    var p := InsertSplits(t, opp, Better<A>);
    if |t| < k {
      SortAppended(t, opp, Better<A>);
    } else if k > 0 {
      assert Take(k, t) == t[..k];
      InsertionWhenFull(k, t, opp);
    }
  }

  lemma InsertionKeepsBest<A(!new)>(k: nat, opps: seq<RankedOpportunity<A>>, opp: RankedOpportunity<A>)
    ensures Insertion(k, Best(k, opps), opp) == Best(k, opps + [opp])
  {
    SortIsStable(opps, Better<A>);
    InsertionIntoSorted(k, SortBest(opps), opp);
    assert (opps + [opp])[..|opps|] == opps;
  }

  /** After any insertions the collector holds the first `k` of the stable sort of them all. */
  lemma {:induction false} CollectorHoldsBest<A(!new)>(k: nat, opps: seq<RankedOpportunity<A>>)
    ensures InsertAll(k, opps) == Best(k, opps)
  {
    if opps != [] {
      CollectorHoldsBest(k, opps[..|opps| - 1]);
      InsertionKeepsBest(k, opps[..|opps| - 1], opps[|opps| - 1]);
      assert opps == opps[..|opps| - 1] + [opps[|opps| - 1]];
    }
  }

  /** Read without sorting: each held entry precedes, by score or else by age, everything that is not held before it. */
  lemma HeldEntriesPrecede<A(!new)>(k: nat, opps: seq<RankedOpportunity<A>>) returns (order: seq<nat>)
    ensures StableOrder(opps, Better<A>, order)
    ensures var held := InsertAll(k, opps);
            && |held| == (if |opps| <= k then |opps| else k)
            && (forall i | 0 <= i < |held| :: held[i] == opps[order[i]])
    ensures forall i, j | 0 <= i < j < |opps| ::
              || opps[order[i]].score > opps[order[j]].score
              || (opps[order[i]].score == opps[order[j]].score && order[i] < order[j])
  {
    var le := Better<A>;
    CollectorHoldsBest(k, opps);
    SortIsStable(opps, le);
    order :| Lists(opps, le, order, Sort(opps, le));
    forall i, j | 0 <= i < j < |opps|
      ensures opps[order[i]].score > opps[order[j]].score
           || (opps[order[i]].score == opps[order[j]].score && order[i] < order[j])
    {
      assert Precedes(opps, le, order[i], order[j]);
    }
  }

  class TopKCollector<A(!new)> {
    const k: nat
    var opportunities: seq<RankedOpportunity<A>>
    ghost var inserted: seq<RankedOpportunity<A>>

    /** The held entries are the best of all inserted ones. */
    ghost predicate Valid()
      reads this
    {
      opportunities == Best(k, inserted)
    }

    constructor (k: nat)
      ensures this.k == k && inserted == [] && opportunities == [] && Valid()
    {
      this.k := k;
      opportunities := [];
      inserted := [];
    }

    method Insert(opp: RankedOpportunity<A>)
      requires Valid()
      modifies this
      ensures inserted == old(inserted) + [opp] && Valid()
    {
      InsertionKeepsBest(k, inserted, opp);
      if |opportunities| < k {
        opportunities := opportunities + [opp];
        opportunities := SortBest(opportunities);
      } else if opportunities != [] {
        var worst := opportunities[|opportunities| - 1];
        if opp.score > worst.score {
          opportunities := opportunities[..|opportunities| - 1];
          opportunities := opportunities + [opp];
          opportunities := SortBest(opportunities);
        }
      }
      inserted := inserted + [opp];
    }
  }
}
