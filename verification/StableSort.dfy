/**
 A stable sort, as the standard libraries of the modelled languages provide it
 (`slice::sort_by`, `sort.SliceStable`), and what makes it the only one.
 */
module StableSort {

  ghost predicate TotalPreorder<T(!new)>(le: (T, T) -> bool) {
    && (forall x, y :: le(x, y) || le(y, x))
    && (forall x, y, z :: le(x, y) && le(y, z) ==> le(x, z))
  }

  ghost predicate SortedBy<T>(s: seq<T>, le: (T, T) -> bool) {
    forall i, j | 0 <= i < j < |s| :: le(s[i], s[j])
  }

  /** Inserts `x` behind every element that does not come strictly after it. */
  function Insert<T>(s: seq<T>, x: T, le: (T, T) -> bool): seq<T> {
    if s == [] then [x]
    else if le(s[|s| - 1], x) then s + [x]
    else Insert(s[..|s| - 1], x, le) + [s[|s| - 1]]
  }

  function Sort<T>(s: seq<T>, le: (T, T) -> bool): seq<T> {
    if s == [] then [] else Insert(Sort(s[..|s| - 1], le), s[|s| - 1], le)
  }

  /** Position `a` of `s` goes in front of position `b`: by the order, and by position among equals. */
  predicate Precedes<T>(s: seq<T>, le: (T, T) -> bool, a: nat, b: nat)
    requires a < |s| && b < |s|
  {
    le(s[a], s[b]) && (le(s[b], s[a]) ==> a < b)
  }

  /** `order` lists every position of `s` once, each in front of all the later ones. */
  ghost predicate StableOrder<T>(s: seq<T>, le: (T, T) -> bool, order: seq<nat>) {
    && |order| == |s|
    && (forall i | 0 <= i < |order| :: order[i] < |s|)
    && (forall i, j | 0 <= i < j < |order| :: Precedes(s, le, order[i], order[j]))
    && (forall a: nat | a < |s| :: a in order)
  }

  ghost predicate Lists<T>(s: seq<T>, le: (T, T) -> bool, order: seq<nat>, t: seq<T>) {
    && StableOrder(s, le, order)
    && |t| == |s|
    && (forall i | 0 <= i < |t| :: t[i] == s[order[i]])
  }

  /** `t` lists the elements of `s` in a stable order. */
  ghost predicate StablySorted<T>(s: seq<T>, le: (T, T) -> bool, t: seq<T>) {
    exists order: seq<nat> :: Lists(s, le, order, t)
  }

  lemma {:induction false} InsertSplits<T(!new)>(s: seq<T>, x: T, le: (T, T) -> bool) returns (p: nat)
    requires TotalPreorder(le) && SortedBy(s, le)
    ensures p <= |s| && Insert(s, x, le) == s[..p] + [x] + s[p..]
    ensures forall i | 0 <= i < p :: le(s[i], x)
    ensures forall i | p <= i < |s| :: !le(s[i], x)
  {
    if s == [] {
      p := 0;
    } else {
      var m := |s| - 1;
      if le(s[m], x) {
        p := |s|;
        forall i | 0 <= i < p ensures le(s[i], x) {
          if i < m { assert le(s[i], s[m]); }
        }
      } else {
        p := InsertSplits(s[..m], x, le);
        assert s[..m][..p] == s[..p] && s[..m][p..] + [s[m]] == s[p..];
      }
    }
  }

  ghost function OrderWith(order': seq<nat>, p: nat, m: nat): seq<nat>
    requires p <= |order'|
  {
    order'[..p] + [m] + order'[p..]
  }

  lemma OrderWithAt(order': seq<nat>, p: nat, m: nat, i: nat)
    requires p <= |order'| && i <= |order'|
    ensures OrderWith(order', p, m)[i] == if i < p then order'[i] else if i == p then m else order'[i - 1]
  {
  }

  lemma OrderWithHasAll(order': seq<nat>, p: nat, m: nat, a: nat)
    requires p <= |order'| && (a == m || a in order')
    ensures a in OrderWith(order', p, m)
  {
  }

  /** Where the last position of `s` is inserted, it stands between what precedes it and what it precedes. */
  lemma OrderWithPrecedes<T(!new)>(s: seq<T>, le: (T, T) -> bool, t': seq<T>, order': seq<nat>, p: nat, i: nat, j: nat)
    requires TotalPreorder(le) && s != [] && Lists(s[..|s| - 1], le, order', t') && p <= |t'|
    requires forall i | 0 <= i < p :: le(t'[i], s[|s| - 1])
    requires forall i | p <= i < |t'| :: !le(t'[i], s[|s| - 1])
    requires i < j < |s|
    ensures var order := OrderWith(order', p, |s| - 1);
            order[i] < |s| && order[j] < |s| && Precedes(s, le, order[i], order[j])
  {
  }

  /** Inserting the last element of `s` into a stable order of the others gives a stable order of all. */
  lemma OrderAfterInsert<T(!new)>(s: seq<T>, le: (T, T) -> bool, t': seq<T>, order': seq<nat>, p: nat)
    requires TotalPreorder(le) && s != []
    requires Lists(s[..|s| - 1], le, order', t') && p <= |t'|
    requires forall i | 0 <= i < p :: le(t'[i], s[|s| - 1])
    requires forall i | p <= i < |t'| :: !le(t'[i], s[|s| - 1])
    ensures Lists(s, le, OrderWith(order', p, |s| - 1), t'[..p] + [s[|s| - 1]] + t'[p..])
  {
    var m := |s| - 1;
    var order, t := OrderWith(order', p, m), t'[..p] + [s[m]] + t'[p..];
    forall i | 0 <= i < |s| ensures order[i] < |s| && t[i] == s[order[i]] { OrderWithAt(order', p, m, i); }
    forall i, j | 0 <= i < j < |s| ensures Precedes(s, le, order[i], order[j]) {
      OrderWithPrecedes(s, le, t', order', p, i, j);
    }
    forall a: nat | a < |s| ensures a in order { OrderWithHasAll(order', p, m, a); }
  }

  lemma LastAdds<T>(s: seq<T>)
    requires s != []
    ensures multiset(s) == multiset(s[..|s| - 1]) + multiset{s[|s| - 1]}
  {
    assert s == s[..|s| - 1] + [s[|s| - 1]];
  }

  lemma {:induction false} InsertAdds<T>(s: seq<T>, x: T, le: (T, T) -> bool)
    ensures multiset(Insert(s, x, le)) == multiset(s) + multiset{x}
  {
    if s != [] && !le(s[|s| - 1], x) {
      InsertAdds(s[..|s| - 1], x, le);
      LastAdds(s);
    }
  }

  lemma {:induction false} SortPermutes<T>(s: seq<T>, le: (T, T) -> bool)
    ensures multiset(Sort(s, le)) == multiset(s)
  {
    if s != [] {
      var m := |s| - 1;
      var t := Sort(s[..m], le);
      SortPermutes(s[..m], le);
      InsertAdds(t, s[m], le);
      LastAdds(s);
    }
  }

  lemma SortedAfterInsert<T(!new)>(s: seq<T>, x: T, p: nat, le: (T, T) -> bool)
    requires TotalPreorder(le) && SortedBy(s, le) && p <= |s|
    requires forall i | 0 <= i < p :: le(s[i], x)
    requires forall i | p <= i < |s| :: !le(s[i], x)
    ensures SortedBy(s[..p] + [x] + s[p..], le)
  {
  }

  /** Sorting orders the elements and keeps equal elements in their given order. */
  lemma {:induction false} SortIsStable<T(!new)>(s: seq<T>, le: (T, T) -> bool)
    requires TotalPreorder(le)
    ensures SortedBy(Sort(s, le), le)
    ensures StablySorted(s, le, Sort(s, le))
  {
    if s == [] {
      assert Lists(s, le, [], Sort(s, le));
    } else {
      var m := |s| - 1;
      SortIsStable(s[..m], le);
      var t' := Sort(s[..m], le);
      var order': seq<nat> :| Lists(s[..m], le, order', t');
      var p := InsertSplits(t', s[m], le);
      SortedAfterInsert(t', s[m], p, le);
      OrderAfterInsert(s, le, t', order', p);
    }
  }

  /** Behind a common beginning, the next position of one order is not in front of that of the other. */
  lemma NextIsNotLater<T(!new)>(s: seq<T>, le: (T, T) -> bool, o1: seq<nat>, o2: seq<nat>, m: nat)
    requires StableOrder(s, le, o1) && StableOrder(s, le, o2) && m < |s|
    requires forall i | 0 <= i < m :: o1[i] == o2[i]
    ensures o1[m] == o2[m] || Precedes(s, le, o2[m], o1[m])
  {
    assert o1[m] in o2;
    var i :| 0 <= i < |s| && o2[i] == o1[m];
  }

  /** A stable sort is determined by its input: there is no second one. */
  lemma {:induction false} StableOrderIsUnique<T(!new)>(
    s: seq<T>, le: (T, T) -> bool, o1: seq<nat>, o2: seq<nat>, k: nat)
    requires StableOrder(s, le, o1) && StableOrder(s, le, o2) && k <= |s|
    ensures forall i | 0 <= i < k :: o1[i] == o2[i]
  {
    if k > 0 {
      StableOrderIsUnique(s, le, o1, o2, k - 1);
      NextIsNotLater(s, le, o1, o2, k - 1);
      NextIsNotLater(s, le, o2, o1, k - 1);
    }
  }

  lemma StableSortIsUnique<T(!new)>(s: seq<T>, le: (T, T) -> bool, t1: seq<T>, t2: seq<T>)
    requires StablySorted(s, le, t1) && StablySorted(s, le, t2)
    ensures t1 == t2
  {
    var o1: seq<nat> :| Lists(s, le, o1, t1);
    var o2: seq<nat> :| Lists(s, le, o2, t2);
    StableOrderIsUnique(s, le, o1, o2, |s|);
    assert o1 == o2;
  }

  /** Sorting leaves a sorted list as it is. */
  lemma {:induction false} SortedStays<T(!new)>(s: seq<T>, le: (T, T) -> bool)
    requires SortedBy(s, le)
    ensures Sort(s, le) == s
  {
    if s != [] {
      var m := |s| - 1;
      SortedStays(s[..m], le);
      assert s == s[..m] + [s[m]];
      if m > 0 { assert le(s[..m][m - 1], s[m]); }
    }
  }
}
