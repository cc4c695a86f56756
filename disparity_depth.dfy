/** The part of `compute_depth_from_disparity` that both versions of the tool share: the copy of
    the disparity grid whose non-positive entries are raised to 0.1, and the metric depth
    `f * b / d` clamped into [0, 100] metres. Grids are row-major; the in-place passes are
    methods over arrays, each specified by the function it computes element by element. */
module DisparityDepth {
  import opened Stats

  /** The value that replaces every non-positive disparity before any division. */
  const DisparityFloor: real := 0.1

  /** The largest metric depth reported, in metres. */
  const MaxDepth: real := 100.0

  /** One entry of the filtered copy: positive disparities are kept, the others become 0.1. */
  function FloorDisparity(x: real): (y: real)
    ensures y > 0.0
    ensures x > 0.0 ==> y == x
    ensures y <= DisparityFloor ==> x <= DisparityFloor
  {
    if x <= 0.0 then DisparityFloor else x
  }

  /** The filtered copy of a whole grid. */
  function Floored(d: seq<real>): (r: seq<real>)
    ensures |r| == |d|
  {
    seq(|d|, i requires 0 <= i < |d| => FloorDisparity(d[i]))
  }

  /** Metric depth of one pixel: `f * b / d'`, then values above 100 become 100 and negative
      values become 0, in that order. */
  function MetricPixel(f: real, b: real, x: real): real {
    var q := (f * b) / FloorDisparity(x);
    var capped := if q > MaxDepth then MaxDepth else q;
    if capped < 0.0 then 0.0 else capped
  }

  /** Metric depth of a grid. Every value lies in [0, 100], and a pixel whose quotient
      `f * b / d'` is already in that range gets exactly that quotient. */
  function MetricDepth(f: real, b: real, d: seq<real>): (r: seq<real>)
    ensures |r| == |d|
    ensures forall i :: 0 <= i < |d| ==> 0.0 <= r[i] <= MaxDepth
    ensures forall i :: 0 <= i < |d| && 0.0 <= (f * b) / FloorDisparity(d[i]) <= MaxDepth ==>
              r[i] == (f * b) / FloorDisparity(d[i])
  {
    seq(|d|, i requires 0 <= i < |d| => MetricPixel(f, b, d[i]))
  }

  /** A non-positive focal-length-baseline product (a zero or negative baseline) gives depth 0
      everywhere, and a positive one gives the cap 100 wherever the disparity was non-positive
      and `f * b` is at least 10. */
  lemma MetricDepthSign(f: real, b: real, d: seq<real>, i: nat)
    requires i < |d|
    ensures f * b <= 0.0 ==> MetricDepth(f, b, d)[i] == 0.0
    ensures f * b >= 10.0 && d[i] <= 0.0 ==> MetricDepth(f, b, d)[i] == MaxDepth
  {
    var fb := f * b;
    var x := FloorDisparity(d[i]);
    if fb <= 0.0 {
      assert fb / x <= 0.0;
    }
    if fb >= 10.0 && d[i] <= 0.0 {
      assert x == 0.1;
      assert fb / x == fb * 10.0;
    }
  }

  /** With a non-negative `f * b`, a larger disparity never gives a larger depth: nearer objects
      (larger disparity) are never reported farther away. */
  lemma MetricDepthAntitone(f: real, b: real, d: seq<real>, i: nat, j: nat)
    requires i < |d| && j < |d|
    requires f * b >= 0.0
    requires FloorDisparity(d[i]) <= FloorDisparity(d[j])
    ensures MetricDepth(f, b, d)[j] <= MetricDepth(f, b, d)[i]
  {
    var fb := f * b;
    var x, y := FloorDisparity(d[i]), FloorDisparity(d[j]);
    DivAntitone(fb, x, y);
  }

  /** `disparity.copy()`: a fresh array with the same contents. */
  method CopyOf(a: array<real>) returns (c: array<real>)
    ensures fresh(c)
    ensures c[..] == a[..]
  {
    c := new real[a.Length];
    var i := 0;
    while i < a.Length
      invariant 0 <= i <= a.Length
      invariant forall k :: 0 <= k < i ==> c[k] == a[k]
    {
      c[i] := a[i];
      i := i + 1;
    }
  }

  /** `a[a <= 0] = 0.1`, in place. */
  method FloorNonPositive(a: array<real>)
    modifies a
    ensures a[..] == Floored(old(a[..]))
  {
    var i := 0;
    while i < a.Length
      invariant 0 <= i <= a.Length
      invariant forall k :: 0 <= k < i ==> a[k] == FloorDisparity(old(a[k]))
      invariant forall k :: i <= k < a.Length ==> a[k] == old(a[k])
    {
      if a[i] <= 0.0 {
        a[i] := DisparityFloor;
      }
      i := i + 1;
    }
  }

  /** `fb / a` for an array of positive entries, into a fresh array. */
  method DivideInto(fb: real, a: array<real>) returns (q: array<real>)
    requires forall k :: 0 <= k < a.Length ==> a[k] > 0.0
    ensures fresh(q) && q.Length == a.Length
    ensures forall k :: 0 <= k < a.Length ==> q[k] == fb / a[k]
  {
    q := new real[a.Length];
    var i := 0;
    while i < a.Length
      invariant 0 <= i <= a.Length
      invariant forall k :: 0 <= k < i ==> q[k] == fb / a[k]
    {
      q[i] := fb / a[i];
      i := i + 1;
    }
  }

  /** `a[a > hi] = hi`, in place. */
  method CapAbove(a: array<real>, hi: real)
    modifies a
    ensures forall k :: 0 <= k < a.Length ==> a[k] == (if old(a[k]) > hi then hi else old(a[k]))
  {
    var i := 0;
    while i < a.Length
      invariant 0 <= i <= a.Length
      invariant forall k :: 0 <= k < i ==> a[k] == (if old(a[k]) > hi then hi else old(a[k]))
      invariant forall k :: i <= k < a.Length ==> a[k] == old(a[k])
    {
      if a[i] > hi {
        a[i] := hi;
      }
      i := i + 1;
    }
  }

  /** `a[a < 0] = 0`, in place. */
  method RaiseNegatives(a: array<real>)
    modifies a
    ensures forall k :: 0 <= k < a.Length ==> a[k] == (if old(a[k]) < 0.0 then 0.0 else old(a[k]))
  {
    var i := 0;
    while i < a.Length
      invariant 0 <= i <= a.Length
      invariant forall k :: 0 <= k < i ==> a[k] == (if old(a[k]) < 0.0 then 0.0 else old(a[k]))
      invariant forall k :: i <= k < a.Length ==> a[k] == old(a[k])
    {
      if a[i] < 0.0 {
        a[i] := 0.0;
      }
      i := i + 1;
    }
  }

  /** The metric branch on the filtered copy: divide `f * b` by it into a fresh array, then cap
      at 100 and raise negatives to 0, in place. The result is `MetricDepth` of the disparities
      the filtered copy was made from. */
  method MetricDepthMap(f: real, b: real, filtered: array<real>, ghost d: seq<real>)
    returns (depth: array<real>)
    requires filtered[..] == Floored(d)
    ensures fresh(depth)
    ensures depth[..] == MetricDepth(f, b, d)
  {
    assert forall k :: 0 <= k < filtered.Length ==> filtered[k] == FloorDisparity(d[k]);
    depth := DivideInto(f * b, filtered);
    CapAbove(depth, MaxDepth);
    RaiseNegatives(depth);
    assert forall k :: 0 <= k < depth.Length ==> depth[k] == MetricPixel(f, b, d[k]);
  }
}
