/**
 * Weighted choice as Python's `random.choices(population, weights=ws, k=1)` makes it
 * (Python 3.9 and later): it accumulates the weights, raises ValueError when the total is
 * not positive, and otherwise bisects the running totals at `random() * total`, searching
 * only the indexes `0 .. n - 1`. Reals stand in for floats, and the number `random()`
 * returned is passed in, so no distribution is modelled: what is proved is which index
 * each draw selects.
 */
module Sampling {
  import opened Wrappers

  /** A value `random.random()` can return */
  type Draw = u: real | 0.0 <= u < 1.0

  function Sum(ws: seq<real>): real {
    if |ws| == 0 then 0.0 else Sum(ws[..|ws| - 1]) + ws[|ws| - 1]
  }

  /** `list(itertools.accumulate(ws))`: entry `i` is the total of the first `i + 1` weights */
  function Accumulate(ws: seq<real>): (cum: seq<real>)
    ensures |cum| == |ws|
  {
    seq(|ws|, i requires 0 <= i < |ws| => Sum(ws[..i + 1]))
  }

  predicate Sorted(a: seq<real>) {
    forall i, j :: 0 <= i <= j < |a| ==> a[i] <= a[j]
  }

  predicate NonNegative(ws: seq<real>) {
    forall i :: 0 <= i < |ws| ==> 0.0 <= ws[i]
  }

  /** `bisect.bisect_right(a, x, lo, hi)`, step for step */
  function BisectRight(a: seq<real>, x: real, lo: int, hi: int): (r: int)
    requires 0 <= lo <= hi <= |a|
    ensures lo <= r <= hi
    decreases hi - lo
  {
    if lo < hi then
      var mid := (lo + hi) / 2;
      if x < a[mid] then BisectRight(a, x, lo, mid) else BisectRight(a, x, mid + 1, hi)
    else lo
  }

  /** On a sorted list, bisect_right splits `a[lo..hi]` into the entries `<= x` and those `> x`. */
  lemma {:induction false} BisectRightSplits(a: seq<real>, x: real, lo: int, hi: int)
    requires 0 <= lo <= hi <= |a|
    requires Sorted(a)
    ensures forall i :: lo <= i < BisectRight(a, x, lo, hi) ==> a[i] <= x
    ensures forall i :: BisectRight(a, x, lo, hi) <= i < hi ==> x < a[i]
    decreases hi - lo
  {
    if lo < hi {
      var mid := (lo + hi) / 2;
      if x < a[mid] {
        BisectRightSplits(a, x, lo, mid);
      } else {
        BisectRightSplits(a, x, mid + 1, hi);
      }
    }
  }

  /**
   * The index `random.choices` picks when `random()` returns `u`, or `None` where it raises
   * ValueError because the weights do not add up to a positive total. With non-negative
   * weights the draw lands, on the scale of the total, in the chosen index's share.
   */
  function Choose(ws: seq<real>, u: Draw): (r: Option<nat>)
    requires |ws| > 0
    ensures r.Some? ==> r.value < |ws|
    ensures r.None? <==> Sum(ws) <= 0.0
    ensures r.Some? && NonNegative(ws) ==> Owns(ws, r.value, Scale(u, Sum(ws)))
  {
    // the last running total, `cum_weights[-1]`, is the sum of all the weights
    if Sum(ws) <= 0.0 then None
    else
      BisectOwnsDraw(ws, u);
      Some(Bisect(ws, Scale(u, Sum(ws))))
  }

  /** The search step of `random.choices`: bisect the running totals at `x` over indexes `0 .. n - 1` */
  function Bisect(ws: seq<real>, x: real): (i: nat)
    requires |ws| > 0
    ensures i < |ws|
  {
    BisectRight(Accumulate(ws), x, 0, |ws| - 1)
  }

  lemma SumStep(ws: seq<real>, i: int)
    requires 0 <= i < |ws|
    ensures Sum(ws[..i + 1]) == Sum(ws[..i]) + ws[i]
  {
    assert ws[..i + 1][..i] == ws[..i];
  }

  /** With non-negative weights the running totals never decrease. */
  lemma {:induction false} SumPrefixMonotone(ws: seq<real>, i: int, j: int)
    requires NonNegative(ws)
    requires 0 <= i <= j <= |ws|
    ensures Sum(ws[..i]) <= Sum(ws[..j])
    decreases j
  {
    if i < j {
      SumPrefixMonotone(ws, i, j - 1);
      SumStep(ws, j - 1);
    }
  }

  lemma AccumulateSorted(ws: seq<real>)
    requires NonNegative(ws)
    ensures Sorted(Accumulate(ws))
  {
    var cum := Accumulate(ws);
    forall i, j | 0 <= i <= j < |cum|
      ensures cum[i] <= cum[j]
    {
      SumPrefixMonotone(ws, i + 1, j + 1);
    }
  }

  /** Index `i` owns the point `x`: the running total before `i` is at most `x`, the one through `i` above it, so `ws[i] > 0` */
  predicate Owns(ws: seq<real>, i: int, x: real) {
    && 0 <= i < |ws|
    && Sum(ws[..i]) <= x < Sum(ws[..i + 1])
    && ws[i] > 0.0
  }

  /**
   * Weighted choice: with non-negative weights of positive total, the draw `u` selects the
   * index `i` whose slice `[Sum(ws[..i]), Sum(ws[..i + 1]))` of the total holds
   * `u * Sum(ws)`. That slice has width `ws[i]`, so the chosen weight is positive and each
   * index is owned by a share of `[0, 1)` proportional to its weight.
   */
  lemma BisectOwnsDraw(ws: seq<real>, u: Draw)
    requires |ws| > 0 && Sum(ws) > 0.0
    ensures NonNegative(ws) ==> Owns(ws, Bisect(ws, Scale(u, Sum(ws))), Scale(u, Sum(ws)))
  {
    if NonNegative(ws) {
      ScaleBelow(u, Sum(ws));
      BisectBracketsDraw(ws, Scale(u, Sum(ws)));
    }
  }

  /** The bracketing step of the weighted choice, over the running totals */
  lemma BisectBracketsDraw(ws: seq<real>, x: real)
    requires |ws| > 0 && NonNegative(ws)
    requires 0.0 <= x < Sum(ws)
    ensures Owns(ws, Bisect(ws, x), x)
  {
    var r := Bisect(ws, x);
    BisectAbove(ws, x);
    BisectBelow(ws, x);
    if r == 0 {
      assert ws[..0] == [];
    }
    SumStep(ws, r);
  }

  /** The running total through the chosen index exceeds the point. */
  lemma BisectAbove(ws: seq<real>, x: real)
    requires |ws| > 0 && NonNegative(ws)
    requires x < Sum(ws)
    ensures x < Sum(ws[..Bisect(ws, x) + 1])
  {
    var n := |ws|;
    var cum := Accumulate(ws);
    var r := Bisect(ws, x);
    AccumulateSorted(ws);
    BisectRightSplits(cum, x, 0, n - 1);
    if r == n - 1 {
      assert ws[..n] == ws;
    } else {
      assert x < cum[r];
    }
  }

  /** The running total before the chosen index does not exceed the point. */
  lemma BisectBelow(ws: seq<real>, x: real)
    requires |ws| > 0 && NonNegative(ws)
    requires 0.0 <= x
    ensures Sum(ws[..Bisect(ws, x)]) <= x
  {
    var cum := Accumulate(ws);
    var r := Bisect(ws, x);
    if r > 0 {
      AccumulateSorted(ws);
      BisectRightSplits(cum, x, 0, |ws| - 1);
      assert cum[r - 1] <= x;
    } else {
      assert ws[..0] == [];
    }
  }

  /** `random() * total`: where a draw lands on the scale of the total weight */
  function Scale(u: real, total: real): real {
    u * total
  }

  lemma ScaleBelow(u: real, total: real)
    requires 0.0 <= u < 1.0 && total > 0.0
    ensures 0.0 <= Scale(u, total) < total
  {
    assert total - u * total == (1.0 - u) * total;
  }

  /** A positive weight among non-negative ones makes the total positive. */
  lemma PositiveWeightPositiveSum(ws: seq<real>, k: int)
    requires NonNegative(ws)
    requires 0 <= k < |ws| && ws[k] > 0.0
    ensures Sum(ws) > 0.0
  {
    assert ws[..0] == [];
    assert ws[..|ws|] == ws;
    SumPrefixMonotone(ws, 0, k);
    SumStep(ws, k);
    SumPrefixMonotone(ws, k + 1, |ws|);
  }
}
