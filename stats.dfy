/** The numpy reductions and masks the depth conversion uses, over real-valued grids stored
    row-major as sequences: `np.min`, `np.max`, `np.clip`, `np.sum(mask)` and `values[mask]`,
    and the min-max rescale `(x - lo) / (hi - lo)` both normalisations share. */
module Stats {

  /** `np.min(s)` of a non-empty sequence. */
  function SeqMin(s: seq<real>): (m: real)
    requires |s| > 0
    ensures m in s
    ensures forall i :: 0 <= i < |s| ==> m <= s[i]
  {
    if |s| == 1 then s[0]
    else
      var rest := SeqMin(s[1..]);
      if s[0] <= rest then s[0] else rest
  }

  /** `np.max(s)` of a non-empty sequence. */
  function SeqMax(s: seq<real>): (m: real)
    requires |s| > 0
    ensures m in s
    ensures forall i :: 0 <= i < |s| ==> s[i] <= m
  {
    if |s| == 1 then s[0]
    else
      var rest := SeqMax(s[1..]);
      if s[0] >= rest then s[0] else rest
  }

  /** `np.clip(x, lo, hi)`, which numpy computes as `minimum(maximum(x, lo), hi)`. */
  function Clip(x: real, lo: real, hi: real): (r: real)
    ensures lo <= hi ==> lo <= r <= hi
    ensures lo <= x <= hi ==> r == x
  {
    var raised := if x < lo then lo else x;
    if raised > hi then hi else raised
  }

  /** Clipping to a fixed range keeps the order of its inputs. */
  lemma ClipMonotone(x: real, y: real, lo: real, hi: real)
    requires x <= y
    ensures Clip(x, lo, hi) <= Clip(y, lo, hi)
  {
  }

  /** `np.sum(mask)`: the number of set entries. */
  function CountTrue(mask: seq<bool>): nat
    decreases |mask|
  {
    if mask == [] then 0
    else CountTrue(mask[..|mask| - 1]) + (if mask[|mask| - 1] then 1 else 0)
  }

  /** No entry is set exactly when the count is zero (`np.any(mask)` is `np.sum(mask) > 0`). */
  lemma {:induction false} CountTrueZero(mask: seq<bool>)
    ensures CountTrue(mask) == 0 <==> forall i :: 0 <= i < |mask| ==> !mask[i]
    decreases |mask|
  {
    if mask != [] {
      var init := mask[..|mask| - 1];
      CountTrueZero(init);
      assert forall i :: 0 <= i < |init| ==> init[i] == mask[i];
    }
  }

  /** `xs[mask]`: the entries of `xs` whose mask entry is set, in their order. */
  function Select(xs: seq<real>, mask: seq<bool>): (r: seq<real>)
    requires |xs| == |mask|
    ensures |r| == CountTrue(mask)
    decreases |xs|
  {
    if xs == [] then []
    else
      var n := |xs| - 1;
      Select(xs[..n], mask[..n]) + (if mask[n] then [xs[n]] else [])
  }

  /** Every selected entry occurs among the selected values. */
  lemma {:induction false} SelectHas(xs: seq<real>, mask: seq<bool>, i: nat)
    requires |xs| == |mask| && i < |xs| && mask[i]
    ensures xs[i] in Select(xs, mask)
    decreases |xs|
  {
    var n := |xs| - 1;
    if i < n {
      SelectHas(xs[..n], mask[..n], i);
    }
  }

  /** A strict lower bound of every selected entry bounds every selected value. */
  lemma {:induction false} SelectAbove(xs: seq<real>, mask: seq<bool>, lo: real)
    requires |xs| == |mask|
    requires forall i :: 0 <= i < |xs| && mask[i] ==> lo < xs[i]
    ensures forall k :: 0 <= k < |Select(xs, mask)| ==> lo < Select(xs, mask)[k]
    decreases |xs|
  {
    if xs != [] {
      var n := |xs| - 1;
      SelectAbove(xs[..n], mask[..n], lo);
    }
  }

  /** Dividing a non-negative number by a larger positive number gives a smaller quotient. */
  lemma DivAntitone(n: real, x: real, y: real)
    requires n >= 0.0 && 0.0 < x <= y
    ensures n / y <= n / x
  {
    var a, c := n / y, n / x;
    assert a * y == n && c * x == n;
    assert a * x <= a * y;
  }

  /** `(x - lo) / (hi - lo + 1e-10)`, with the guard term read as "an empty range gives 0": the
      ends of a non-empty range go to 0 and 1. */
  function Rescale(x: real, lo: real, hi: real): (r: real)
    ensures lo < hi && lo <= x <= hi ==> 0.0 <= r <= 1.0
    ensures lo < hi && x == lo ==> r == 0.0
    ensures lo < hi && x == hi ==> r == 1.0
    ensures lo < hi && x < lo ==> r < 0.0
    ensures hi <= lo ==> r == 0.0
  {
    if hi > lo then
      QuotientBounds(x - lo, hi - lo);
      (x - lo) / (hi - lo)
    else 0.0
  }

  /** The sign of `a / d` for a positive `d`, and how it compares with 1. */
  lemma QuotientBounds(a: real, d: real)
    requires d > 0.0
    ensures a >= 0.0 ==> a / d >= 0.0
    ensures a < 0.0 ==> a / d < 0.0
    ensures a <= d ==> a / d <= 1.0
    ensures a == 0.0 ==> a / d == 0.0
    ensures a == d ==> a / d == 1.0
  {
    var q := a / d;
    assert q * d == a;
    if q > 1.0 {
      assert q * d > 1.0 * d;
    } else if q < 1.0 {
      assert q * d < 1.0 * d;
    }
    if q < 0.0 {
      assert q * d < 0.0 * d;
    } else if q > 0.0 {
      assert q * d > 0.0 * d;
    }
  }

  /** Rescaling to a fixed range keeps the order of its inputs. */
  lemma RescaleMonotone(x: real, y: real, lo: real, hi: real)
    requires x <= y
    ensures Rescale(x, lo, hi) <= Rescale(y, lo, hi)
  {
    if hi > lo {
      var d := hi - lo;
      assert (y - lo) / d - (x - lo) / d == (y - x) / d;
    }
  }
}
