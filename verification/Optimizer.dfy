/**
 The search for the most profitable input amount: ternary search for profit curves
 with a single peak, and grid search for all others.
 */
module Optimizer {

  const TWO_256: nat := 0x1_00000000_00000000_00000000_00000000_00000000_00000000_00000000_00000000

  /** Amounts are unsigned 256-bit words; their addition and subtraction wrap around. */
  type Amount = x: nat | x < TWO_256

  function WrappingAdd(a: Amount, b: Amount): Amount {
    if a + b < TWO_256 then a + b else a + b - TWO_256
  }

  function WrappingSub(a: Amount, b: Amount): Amount {
    if a >= b then a - b else a - b + TWO_256
  }

  function SaturatingAdd(a: Amount, b: Amount): Amount {
    if a + b < TWO_256 then a + b else TWO_256 - 1
  }

  const I128_MIN: int := -0x80000000_00000000_00000000_00000000

  type Profit = x: int | I128_MIN <= x < 0x80000000_00000000_00000000_00000000

  /** The profit rises strictly up to `peak` and falls strictly after it. */
  ghost predicate Unimodal(f: nat -> Profit, min: Amount, max: Amount, peak: Amount) {
    && min <= peak <= max
    && (forall a: nat, b: nat | min <= a < b <= peak :: f(a) < f(b))
    && (forall a: nat, b: nat | peak <= a < b <= max :: f(a) > f(b))
  }

  function Pow(b: nat, e: nat): nat {
    if e == 0 then 1 else b * Pow(b, e - 1)
  }

  /** After `k` rounds that keep at most two thirds, `w` is left of `w0`: both counted beyond 2. */
  ghost predicate Contracted(k: nat, w: int, w0: int) {
    Pow(3, k) * (w - 2) <= Pow(2, k) * (w0 - 2)
  }

  lemma ContractedOnce(k: nat, w': int, w: int, w0: int)
    requires Contracted(k, w, w0) && 3 * (w' - 2) <= 2 * (w - 2)
    ensures Contracted(k + 1, w', w0)
  {
  }

  lemma MulMono(a: nat, x: int, y: int)
    requires x <= y
    ensures a * x <= a * y
  {
  }

  /** A width of at most 2 counts as contracted by any further number of rounds. */
  lemma {:induction false} NarrowIsContracted(k: nat, j: nat, w: int, w0: int)
    requires Contracted(k, w, w0) && k <= j && w <= 2
    ensures Contracted(j, w, w0)
    decreases j - k
  {
    if k < j {
      ContractedOnce(k, w, w, w0);
      NarrowIsContracted(k + 1, j, w, w0);
    }
  }

  /** The bounds after one round. */
  ghost function Narrowed(lo: nat, hi: nat, f: nat -> Profit): (nat, nat)
    requires lo <= hi
  {
    var third := (hi - lo) / 3;
    if f(lo + third) < f(hi - third) then (lo + third, hi) else (lo, hi - third)
  }

  /** One comparison of two inner points keeps the peak between the new bounds. */
  lemma PeakStays(f: nat -> Profit, lo: Amount, hi: Amount, min: Amount, max: Amount, peak: Amount)
    requires Unimodal(f, min, max, peak) && min <= lo <= hi <= max && lo <= peak <= hi
    ensures var (lo', hi') := Narrowed(lo, hi, f); lo' <= peak <= hi'
  {
  }

  /** One round: two inner points are compared, and the outer third next to the worse one is cut off. */
  method NarrowOnce(lo: Amount, hi: Amount, f: nat -> Profit) returns (lo': Amount, hi': Amount)
    ensures lo <= hi ==> (lo', hi') == Narrowed(lo, hi, f) && lo <= lo' <= hi' <= hi
    ensures lo <= hi ==> 3 * (hi' - lo' - 2) <= 2 * (hi - lo - 2)
  {
    var range := WrappingSub(hi, lo);
    var third := range / 3;
    var m1 := WrappingAdd(lo, third);
    var m2 := WrappingSub(hi, third);
    var p1 := f(m1);
    var p2 := f(m2);
    if p1 < p2 {
      lo', hi' := m1, hi;
    } else {
      lo', hi' := lo, m2;
    }
  }

  lemma EnoughRounds(k: nat, w: int, w0: int)
    requires Contracted(k, w, w0)
    ensures Pow(2, k) * (w0 - 2) < Pow(3, k) ==> w <= 2
  {
  }

  /**
   Ternary search. The result lies in the range, and for a curve with one peak it is within
   half the final width of that peak; the final width shrinks by a third with every round.
   */
  method TernarySearch(min: Amount, max: Amount, iterations: nat, f: nat -> Profit)
    returns (optimal: Amount, profit: Profit, ghost width: nat)
    ensures profit == f(optimal)
    ensures min <= max ==> min <= optimal <= max && Contracted(iterations, width, max - min)
    ensures min <= max ==> forall peak: Amount | Unimodal(f, min, max, peak) ::
              peak - (width + 1) / 2 <= optimal <= peak + (width + 1) / 2
    ensures min <= max && Pow(2, iterations) * (max - min - 2) < Pow(3, iterations) ==>
              forall peak: Amount | Unimodal(f, min, max, peak) :: peak - 1 <= optimal <= peak + 1
  {
    var lo: Amount, hi: Amount := min, max;
    var i := 0;
    while i < iterations
      invariant i <= iterations
      invariant min <= max ==> min <= lo <= hi <= max && Contracted(i, hi - lo, max - min)
      invariant min <= max ==> forall peak: Amount | Unimodal(f, min, max, peak) :: lo <= peak <= hi
    {
      if hi <= WrappingAdd(lo, 2) {
        if min <= max { NarrowIsContracted(i, iterations, hi - lo, max - min); }
        break;
      }
      ghost var lo': Amount, hi': Amount := lo, hi;
      lo, hi := NarrowOnce(lo, hi, f);
      if min <= max {
        ContractedOnce(i, hi - lo, hi' - lo', max - min);
        forall peak: Amount | Unimodal(f, min, max, peak) ensures lo <= peak <= hi {
          PeakStays(f, lo', hi', min, max, peak);
        }
      }
      i := i + 1;
    }
    width := WrappingSub(hi, lo);
    optimal := WrappingAdd(lo, WrappingSub(hi, lo) / 2);
    profit := f(optimal);
    if min <= max { EnoughRounds(iterations, width, max - min); }
  }

  // ----- grid search

  /** `i` equal steps. */
  function Offset(step: nat, i: nat): nat {
    if i == 0 then 0 else Offset(step, i - 1) + step
  }

  lemma {:induction false} OffsetIsProduct(step: nat, i: nat)
    ensures Offset(step, i) == i * step
  {
    if i > 0 { OffsetIsProduct(step, i - 1); }
  }

  /** The `i`-th grid point. */
  function GridPoint(min: nat, step: nat, i: nat): nat {
    min + Offset(step, i)
  }

  /** All `steps + 1` grid points lie in the range. */
  lemma GridFits(min: nat, max: nat, steps: nat, i: nat)
    requires min <= max && 0 < steps && i <= steps
    ensures min <= GridPoint(min, (max - min) / steps, i) <= max
  {
    var step := (max - min) / steps;
    OffsetIsProduct(step, i);
    MulMono(step, i, steps);
    assert steps * step <= max - min;
  }

  /** No grid: the range is empty or too narrow for the number of steps. */
  predicate NoGrid(min: Amount, max: Amount, steps: nat) {
    min >= max || steps == 0 || (max - min) / steps == 0
  }

  /** Among the first `count` grid points, number `at` is the first of the best. */
  ghost predicate FirstBest(f: nat -> Profit, min: nat, step: nat, count: nat, at: nat) {
    && at < count
    && (forall i: nat | i < count :: f(GridPoint(min, step, i)) <= f(GridPoint(min, step, at)))
    && (forall i: nat | i < at :: f(GridPoint(min, step, i)) < f(GridPoint(min, step, at)))
  }

  lemma FirstPoint(f: nat -> Profit, min: nat, step: nat)
    ensures FirstBest(f, min, step, 1, 0) && GridPoint(min, step, 0) == min
  {
  }

  /** One more grid point: it is the first best one if it beats the best so far. */
  lemma NextPoint(f: nat -> Profit, min: nat, step: nat, count: nat, at: nat)
    requires FirstBest(f, min, step, count, at)
    ensures if f(GridPoint(min, step, count)) > f(GridPoint(min, step, at))
            then FirstBest(f, min, step, count + 1, count)
            else FirstBest(f, min, step, count + 1, at)
  {
  }

  /** Up to the last grid point the addition does not saturate. */
  lemma NextGridPoint(min: Amount, max: Amount, steps: nat, i: nat)
    requires min <= max && 0 < steps && i <= steps
    ensures var step := (max - min) / steps;
            && GridPoint(min, step, i) <= max < TWO_256
            && (i < steps ==> SaturatingAdd(GridPoint(min, step, i), step) == GridPoint(min, step, i + 1) <= max)
  {
    GridFits(min, max, steps, i);
    if i < steps { GridFits(min, max, steps, i + 1); }
  }

  /**
   Grid search. The result is the best of all the grid points, and the first of the equally
   good ones; on a degenerate grid it is the lower bound.
   */
  method GridSearch(min: Amount, max: Amount, steps: nat, f: nat -> Profit)
    returns (best: Amount, profit: Profit, ghost at: nat)
    ensures profit == f(best)
    ensures NoGrid(min, max, steps) ==> best == min
    ensures !NoGrid(min, max, steps) ==>
              && best == GridPoint(min, (max - min) / steps, at) <= max
              && FirstBest(f, min, (max - min) / steps, steps + 1, at)
  {
    at := 0;
    if min >= max || steps == 0 {
      return min, f(min), at;
    }
    var range := max - min;
    var stepSize := range / steps;
    if stepSize == 0 {
      return min, f(min), at;
    }
    best, profit := min, I128_MIN;
    var current: Amount := min;
    var i := 0;
    while i <= steps
      invariant i <= steps + 1
      invariant i <= steps ==> current == GridPoint(min, stepSize, i)
      invariant i == 0 ==> at == 0 && best == min && profit == I128_MIN
      invariant i > 0 ==>
                  FirstBest(f, min, stepSize, i, at) && best == GridPoint(min, stepSize, at) && profit == f(best)
    {
      var p := f(current);
      if i == 0 { FirstPoint(f, min, stepSize); } else { NextPoint(f, min, stepSize, i, at); }
      if p > profit {
        profit, best, at := p, current, i;
      }
      NextGridPoint(min, max, steps, i);
      current := SaturatingAdd(current, stepSize);
      i := i + 1;
      if current > max {
        // Only the step past the last grid point leaves the range.
        assert i == steps + 1;
        break;
      }
    }
    GridFits(min, max, steps, at);
  }

  /** What of the range is left above the last grid point. */
  lemma AboveLastPoint(min: Amount, max: Amount, steps: nat)
    requires min <= max && steps > 0
    ensures max - GridPoint(min, (max - min) / steps, steps) == (max - min) % steps
  {
    OffsetIsProduct((max - min) / steps, steps);
  }

  lemma BestIsNearPeak(f: nat -> Profit, min: Amount, max: Amount, steps: nat, at: nat, peak: Amount)
    requires !NoGrid(min, max, steps) && Unimodal(f, min, max, peak)
    requires FirstBest(f, min, (max - min) / steps, steps + 1, at)
    ensures var step := (max - min) / steps;
            var best := GridPoint(min, step, at);
            best - step < peak && (peak < best + step || at == steps)
  {
    var step := (max - min) / steps;
    var best := GridPoint(min, step, at);
    GridFits(min, max, steps, at);
    if at < steps {
      GridFits(min, max, steps, at + 1);
      assert f(GridPoint(min, step, at + 1)) <= f(best);
    }
    if at > 0 {
      GridFits(min, max, steps, at - 1);
      assert f(GridPoint(min, step, at - 1)) <= f(best);
    }
  }

  /** For a curve with one peak the best grid point is less than a step away; above the last one, less than `steps`. */
  lemma GridIsNearPeak(f: nat -> Profit, min: Amount, max: Amount, steps: nat, at: nat, peak: Amount)
    requires !NoGrid(min, max, steps) && Unimodal(f, min, max, peak)
    requires FirstBest(f, min, (max - min) / steps, steps + 1, at)
    ensures var step := (max - min) / steps;
            var best := GridPoint(min, step, at);
            && best - step < peak
            && (at < steps ==> peak < best + step)
            && (at == steps ==> peak - best <= (max - min) % steps)
  {
    BestIsNearPeak(f, min, max, steps, at, peak);
    AboveLastPoint(min, max, steps);
  }
}
