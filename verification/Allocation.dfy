/**
 How next-window volume is split over builders, as arithmetic on their scores, and how a
 random number picks a builder from that split.
 */
module Allocation {

  function Pos(x: real): real {
    if x > 0.0 then x else 0.0
  }

  /** The sum of the positive scores among the first `k`. */
  function SumPos(scores: seq<real>, k: nat): (s: real)
    requires k <= |scores|
    ensures s >= 0.0
  {
    if k == 0 then 0.0 else SumPos(scores, k - 1) + Pos(scores[k - 1])
  }

  /** The share of builder `i`: an even part of the floor, and the rest in proportion to positive score. */
  function Share(floor: real, scores: seq<real>, i: nat): real
    requires i < |scores|
  {
    var n, sum := |scores|, SumPos(scores, |scores|);
    if sum == 0.0 then 1.0 / n as real
    else floor / n as real + (1.0 - floor) * (Pos(scores[i]) / sum)
  }

  lemma ShareIs(floor: real, scores: seq<real>, i: nat, each: real, remaining: real, p: real, sum: real)
    requires i < |scores| && each == floor / |scores| as real && remaining == 1.0 - floor
    requires p == Pos(scores[i]) && sum == SumPos(scores, |scores|)
    ensures Share(floor, scores, i) == if sum == 0.0 then 1.0 / |scores| as real else each + remaining * (p / sum)
  {
  }

  function Shares(floor: real, scores: seq<real>): (s: seq<real>)
    ensures |s| == |scores| && forall i | 0 <= i < |scores| :: s[i] == Share(floor, scores, i)
  {
    seq(|scores|, i requires 0 <= i < |scores| => Share(floor, scores, i))
  }

  /** The first `k` numbers together. */
  function PrefixSum(xs: seq<real>, k: nat): real
    requires k <= |xs|
  {
    if k == 0 then 0.0 else PrefixSum(xs, k - 1) + xs[k - 1]
  }

  lemma Regroup(a: real, p: real, s: real)
    requires s != 0.0
    ensures a * (p / s) == (a / s) * p
  {
  }

  ghost function Term(scores: seq<real>, i: nat, each: real, c: real): real
    requires i < |scores|
  {
    each + c * Pos(scores[i])
  }

  lemma ShareIsLinear(floor: real, scores: seq<real>, i: nat, each: real, c: real)
    requires i < |scores| && SumPos(scores, |scores|) != 0.0
    requires each == floor / |scores| as real && c == (1.0 - floor) / SumPos(scores, |scores|)
    ensures Share(floor, scores, i) == Term(scores, i, each, c)
  {
    var sum, p := SumPos(scores, |scores|), Pos(scores[i]);
    assert (1.0 - floor) * (p / sum) == c * p by { Regroup(1.0 - floor, p, sum); }
  }

  /** The same sum, with the shares written as `each + c * Pos(score)`. */
  ghost function Affine(scores: seq<real>, k: nat, each: real, c: real): real
    requires k <= |scores|
  {
    if k == 0 then 0.0 else Affine(scores, k - 1, each, c) + Term(scores, k - 1, each, c)
  }

  ghost function Line(k: nat, each: real, c: real, sum: real): real {
    k as real * each + c * sum
  }

  lemma LineStep(k: nat, each: real, c: real, sum: real, p: real)
    ensures Line(k, each, c, sum) + (each + c * p) == Line(k + 1, each, c, sum + p)
  {
  }

  lemma {:induction false} AffineSum(scores: seq<real>, k: nat, each: real, c: real)
    requires k <= |scores|
    ensures Affine(scores, k, each, c) == Line(k, each, c, SumPos(scores, k))
  {
    if k > 0 {
      AffineSum(scores, k - 1, each, c);
      LineStep(k - 1, each, c, SumPos(scores, k - 1), Pos(scores[k - 1]));
    }
  }

  lemma {:induction false} PrefixIsAffine(xs: seq<real>, scores: seq<real>, k: nat, each: real, c: real)
    requires k <= |scores| == |xs|
    requires forall i | 0 <= i < |scores| :: xs[i] == Term(scores, i, each, c)
    ensures PrefixSum(xs, k) == Affine(scores, k, each, c)
  {
    if k > 0 { PrefixIsAffine(xs, scores, k - 1, each, c); }
  }

  lemma {:induction false} PrefixIsUniform(xs: seq<real>, k: nat, each: real)
    requires k <= |xs| && forall i | 0 <= i < |xs| :: xs[i] == each
    ensures PrefixSum(xs, k) == k as real * each
  {
    if k > 0 {
      PrefixIsUniform(xs, k - 1, each);
      assert k as real * each == (k - 1) as real * each + each;
    }
  }

  lemma TimesQuotient(x: real, n: nat)
    requires n > 0
    ensures n as real * (x / n as real) == x
  {
  }

  lemma QuotientTimes(x: real, s: real)
    requires s != 0.0
    ensures (x / s) * s == x
  {
  }

  /** Where some score is positive, the shares are an even part plus a multiple of the positive score. */
  lemma ProportionalShares(floor: real, scores: seq<real>) returns (each: real, c: real)
    requires scores != [] && SumPos(scores, |scores|) != 0.0
    ensures forall i | 0 <= i < |scores| :: Shares(floor, scores)[i] == Term(scores, i, each, c)
    ensures Line(|scores|, each, c, SumPos(scores, |scores|)) == 1.0
  {
    each, c := floor / |scores| as real, (1.0 - floor) / SumPos(scores, |scores|);
    TimesQuotient(floor, |scores|);
    QuotientTimes(1.0 - floor, SumPos(scores, |scores|));
    forall i | 0 <= i < |scores| ensures Share(floor, scores, i) == Term(scores, i, each, c) {
      ShareIsLinear(floor, scores, i, each, c);
    }
  }

  /** Where none is, they are all the same. */
  lemma UniformShares(floor: real, scores: seq<real>) returns (each: real)
    requires scores != [] && SumPos(scores, |scores|) == 0.0
    ensures |scores| as real * each == 1.0 && forall i | 0 <= i < |scores| :: Shares(floor, scores)[i] == each
  {
    each := 1.0 / |scores| as real;
    TimesQuotient(1.0, |scores|);
  }

  /** All of `xs` together. */
  predicate SumsTo(xs: seq<real>, total: real) {
    PrefixSum(xs, |xs|) == total
  }

  lemma ProportionalSum(xs: seq<real>, scores: seq<real>, each: real, c: real)
    requires |xs| == |scores| && forall i | 0 <= i < |scores| :: xs[i] == Term(scores, i, each, c)
    requires Line(|scores|, each, c, SumPos(scores, |scores|)) == 1.0
    ensures SumsTo(xs, 1.0)
  {
    PrefixIsAffine(xs, scores, |scores|, each, c);
    AffineSum(scores, |scores|, each, c);
  }

  lemma UniformSum(xs: seq<real>, each: real)
    requires |xs| as real * each == 1.0 && forall i | 0 <= i < |xs| :: xs[i] == each
    ensures SumsTo(xs, 1.0)
  {
    PrefixIsUniform(xs, |xs|, each);
  }

  /** The shares add up to exactly 1, whatever the scores. */
  lemma SharesSumToOne(floor: real, scores: seq<real>)
    requires scores != []
    ensures SumsTo(Shares(floor, scores), 1.0)
  {
    if SumPos(scores, |scores|) == 0.0 {
      var each := UniformShares(floor, scores);
      UniformSum(Shares(floor, scores), each);
    } else {
      var each, c := ProportionalShares(floor, scores);
      ProportionalSum(Shares(floor, scores), scores, each, c);
    }
  }

  /** No share is below the even part of the floor. */
  lemma ShareHasFloor(floor: real, scores: seq<real>, i: nat)
    requires i < |scores| && 0.0 < floor < 1.0
    ensures Share(floor, scores, i) >= floor / |scores| as real > 0.0
  {
  }

  lemma QuotientGrows(x: real, y: real, n: real)
    requires x < y && n > 0.0
    ensures x / n < y / n
  {
  }

  lemma NotNegative(a: real, b: real)
    requires a >= 0.0 && b >= 0.0
    ensures a * b >= 0.0
  {
  }

  /** A higher score never gets a smaller share. */
  lemma ShareFollowsScore(floor: real, scores: seq<real>, i: nat, j: nat)
    requires i < |scores| && j < |scores| && scores[i] <= scores[j] && 0.0 < floor < 1.0
    ensures Share(floor, scores, i) <= Share(floor, scores, j)
  {
    var n, sum := |scores|, SumPos(scores, |scores|);
    if sum != 0.0 {
      var each, c := floor / n as real, (1.0 - floor) / sum;
      ShareIsLinear(floor, scores, i, each, c);
      ShareIsLinear(floor, scores, j, each, c);
      QuotientGrows(0.0, 1.0 - floor, sum);
      NotNegative(c, Pos(scores[j]) - Pos(scores[i]));
      assert c * (Pos(scores[j]) - Pos(scores[i])) == c * Pos(scores[j]) - c * Pos(scores[i]);
    }
  }

  lemma {:induction false} SumPosIsZero(scores: seq<real>, k: nat)
    requires k <= |scores|
    ensures SumPos(scores, k) == 0.0 <==> forall i | 0 <= i < k :: scores[i] <= 0.0
  {
    if k > 0 { SumPosIsZero(scores, k - 1); }
  }

  lemma CrossTerms(a: real, b: real, c: real)
    ensures (c * a) * b == (c * b) * a
  {
  }

  /**
   How the shares follow the scores: what positive scores get beyond the even part of the floor is
   in proportion to them, other scores get the even part when some score is positive, and without
   a positive score all shares are equal.
   */
  lemma SharesAreProportional(floor: real, scores: seq<real>, i: nat, j: nat)
    requires i < |scores| && j < |scores|
    ensures var each := floor / |scores| as real;
            && (scores[i] > 0.0 && scores[j] > 0.0 ==>
                  (Share(floor, scores, i) - each) * scores[j] == (Share(floor, scores, j) - each) * scores[i])
            && (scores[i] <= 0.0 && scores[j] > 0.0 ==> Share(floor, scores, i) == each)
    ensures (forall k | 0 <= k < |scores| :: scores[k] <= 0.0) ==> Share(floor, scores, i) == 1.0 / |scores| as real
  {
    var n, sum := |scores|, SumPos(scores, |scores|);
    SumPosIsZero(scores, n);
    if sum != 0.0 {
      var each, c := floor / n as real, (1.0 - floor) / sum;
      ShareIsLinear(floor, scores, i, each, c);
      ShareIsLinear(floor, scores, j, each, c);
      CrossTerms(scores[i], scores[j], c);
    }
  }

  /** Splits the volume: one pass to sum the positive scores, one to hand out the shares. */
  method SplitVolume(floor: real, scores: seq<real>) returns (shares: seq<real>)
    ensures shares == Shares(floor, scores)
  {
    var n := |scores|;
    shares := [];
    if n == 0 {
      return;
    }
    var floorEach := floor / n as real;
    var sumPos := 0.0;
    var pos: seq<real> := [];
    for i := 0 to n
      invariant sumPos == SumPos(scores, i) && |pos| == i
      invariant forall j | 0 <= j < i :: pos[j] == Pos(scores[j])
    {
      pos := pos + [if scores[i] > 0.0 then scores[i] else 0.0];
      if scores[i] > 0.0 {
        sumPos := sumPos + scores[i];
      }
    }
    var remaining := 1.0 - floor;
    for i := 0 to n
      invariant |shares| == i
      invariant forall j | 0 <= j < i :: shares[j] == Share(floor, scores, j)
    {
      ShareIs(floor, scores, i, floorEach, remaining, pos[i], sumPos);
      shares := shares + [if sumPos == 0.0 then 1.0 / n as real else floorEach + remaining * (pos[i] / sumPos)];
    }
  }

  // ----- sampling

  lemma {:induction false} PrefixGrows(xs: seq<real>, k: nat, m: nat)
    requires k <= m <= |xs| && forall i | 0 <= i < |xs| :: xs[i] > 0.0
    ensures PrefixSum(xs, k) <= PrefixSum(xs, m)
    decreases m
  {
    if k < m { PrefixGrows(xs, k, m - 1); }
  }

  /** `r` falls into the interval of number `i`, which ends where the next one starts and is `xs[i]` long. */
  predicate InInterval(xs: seq<real>, i: nat, r: real)
    requires i < |xs|
  {
    (i == 0 || PrefixSum(xs, i) < r) && r <= PrefixSum(xs, i) + xs[i]
  }

  /** No number falls into two intervals. */
  lemma IntervalsAreDisjoint(xs: seq<real>, r: real, i: nat, j: nat)
    requires i < |xs| && j < |xs| && forall i | 0 <= i < |xs| :: xs[i] > 0.0
    requires InInterval(xs, i, r) && InInterval(xs, j, r)
    ensures i == j
  {
    if i < j { PrefixGrows(xs, i + 1, j); }
    if j < i { PrefixGrows(xs, j + 1, i); }
  }

  /** With a floor in force, a random number picks one builder and no other. */
  lemma OneBuilderPerNumber(floor: real, scores: seq<real>, r: real, i: nat, j: nat)
    requires 0.0 < floor < 1.0 && i < |scores| && j < |scores|
    requires InInterval(Shares(floor, scores), i, r) && InInterval(Shares(floor, scores), j, r)
    ensures i == j
  {
    forall k | 0 <= k < |scores| ensures Shares(floor, scores)[k] > 0.0 { ShareHasFloor(floor, scores, k); }
    IntervalsAreDisjoint(Shares(floor, scores), r, i, j);
  }

  /** Walks the intervals; numbers below the total are always found. */
  method Sample(xs: seq<real>, r: real) returns (at: nat)
    requires xs != [] && SumsTo(xs, 1.0) && r < 1.0
    ensures at < |xs| && InInterval(xs, at, r)
  {
    var cum := 0.0;
    for i := 0 to |xs|
      invariant cum == PrefixSum(xs, i)
      invariant i > 0 ==> cum < r
    {
      cum := cum + xs[i];
      if r <= cum {
        return i;
      }
    }
    // The total has been reached, so a number has been returned.
    assert false;
  }
}
