/** `compute_depth_from_disparity` and `get_depth_calculation_type` of the Chinese version of the
    tool, as functions of the disparity grid (row-major). The metric branch is the one both
    versions share (`DisparityDepth`). The relative branch inverts every pixel of the filtered
    copy, clips at the 95th percentile, divides by it, and min-max rescales the result to
    [0, 255]; it keeps the values as reals (no 8-bit quantisation, no mask, no median filter).
    The array passes are the methods of `ToolZh.StereoVisionTool`. */
module DepthZh {
  import opened Wrappers
  import opened Stats
  import opened Library
  import opened DisparityDepth

  /** The percentile at which the relative depth is clipped. */
  const ClipPercentile: real := 95.0

  /** The largest value `cv2.normalize(..., 0, 255, NORM_MINMAX)` writes. */
  const DisplayMax: real := 255.0

  /** `1.0 / disparity_filtered`, for a grid whose entries are all positive (the filtered copy
      has no entry at or below 0). Every value is finite, so `valid_values` is the whole grid. */
  function Reciprocal(filtered: seq<real>): (rel: seq<real>)
    requires forall i :: 0 <= i < |filtered| ==> filtered[i] > 0.0
    ensures |rel| == |filtered|
    ensures forall i :: 0 <= i < |filtered| ==> rel[i] > 0.0 && rel[i] * filtered[i] == 1.0
  {
    seq(|filtered|, i requires 0 <= i < |filtered| => 1.0 / filtered[i])
  }

  /** `np.clip(relative_depth, 0, p95) / p95` for a positive `p95`: values in [0, 1], the ones at
      or beyond the percentile all 1, and the ones below it scaled by `1 / p95`. */
  function ClipToPercentile(rel: seq<real>, p95: real): (s: seq<real>)
    requires p95 > 0.0
    ensures |s| == |rel|
    ensures forall i :: 0 <= i < |rel| ==> 0.0 <= s[i] <= 1.0
    ensures forall i :: 0 <= i < |rel| && rel[i] >= p95 ==> s[i] == 1.0
    ensures forall i :: 0 <= i < |rel| && 0.0 <= rel[i] <= p95 ==> s[i] * p95 == rel[i]
  {
    seq(|rel|, i requires 0 <= i < |rel| => ClipScaled(rel[i], p95))
  }

  /** One entry of `ClipToPercentile`. */
  function ClipScaled(x: real, p95: real): (y: real)
    requires p95 > 0.0
    ensures 0.0 <= y <= 1.0
    ensures x >= p95 ==> y == 1.0
    ensures 0.0 <= x <= p95 ==> y * p95 == x
    ensures x < p95 ==> y < 1.0
  {
    var c := Clip(x, 0.0, p95);
    QuotientBounds(c, p95);
    c / p95
  }

  /** Clipping and scaling by a fixed percentile keeps the order of its inputs. */
  lemma ClipScaledMonotone(x: real, y: real, p95: real)
    requires p95 > 0.0 && x <= y
    ensures ClipScaled(x, p95) <= ClipScaled(y, p95)
  {
    var cx, cy := Clip(x, 0.0, p95), Clip(y, 0.0, p95);
    ClipMonotone(x, y, 0.0, p95);
    assert cy / p95 - cx / p95 == (cy - cx) / p95;
    QuotientBounds(cy - cx, p95);
  }

  /** `cv2.normalize(src, None, 0, 255, cv2.NORM_MINMAX)`: the smallest value goes to 0, the
      largest to 255, linearly in between; a constant grid (an empty range, where OpenCV uses a
      scale of 0) becomes all 0. */
  function NormalizeMinMax(s: seq<real>): (r: seq<real>)
    ensures |r| == |s|
    ensures forall i :: 0 <= i < |s| ==> 0.0 <= r[i] <= DisplayMax
    ensures forall i :: 0 <= i < |s| && s[i] == SeqMin(s) ==> r[i] == 0.0
    ensures forall i :: 0 <= i < |s| && s[i] == SeqMax(s) && SeqMin(s) < SeqMax(s) ==> r[i] == DisplayMax
  {
    if s == [] then []
    else
      var lo, hi := SeqMin(s), SeqMax(s);
      seq(|s|, i requires 0 <= i < |s| => DisplayMax * Rescale(s[i], lo, hi))
  }

  /** The relative branch on the filtered grid: reciprocal, clip at the 95th percentile and
      divide by it (skipped for an empty grid), then rescale to [0, 255]. */
  function RelativeDepth(filtered: seq<real>, ops: Ops): (r: seq<real>)
    requires ValidOps(ops)
    requires forall i :: 0 <= i < |filtered| ==> filtered[i] > 0.0
    ensures |r| == |filtered|
  {
    var rel := Reciprocal(filtered);
    if rel == [] then NormalizeMinMax(rel)
    else
      PercentilePositive(rel, ops);
      NormalizeMinMax(ClipToPercentile(rel, ops.percentile(rel, ClipPercentile)))
  }

  /** The percentile of positive values is positive. */
  lemma PercentilePositive(rel: seq<real>, ops: Ops)
    requires ValidOps(ops) && |rel| > 0
    requires forall i :: 0 <= i < |rel| ==> rel[i] > 0.0
    ensures ops.percentile(rel, ClipPercentile) > 0.0
  {
    var m := SeqMin(rel);
    var k :| 0 <= k < |rel| && rel[k] == m;
  }

  /** The whole conversion: metric depth from the calibration, or relative depth. */
  function DepthFromDisparity(d: seq<real>, useCalib: bool, focal: real, baseline: real, ops: Ops)
    : (r: seq<real>)
    requires ValidOps(ops)
    ensures |r| == |d|
  {
    if useCalib then MetricDepth(focal, baseline, d)
    else
      FlooredPositive(d);
      RelativeDepth(Floored(d), ops)
  }

  /** The filtered copy holds the floored disparities, all positive. */
  lemma FlooredPositive(d: seq<real>)
    ensures forall i :: 0 <= i < |d| ==> Floored(d)[i] == FloorDisparity(d[i]) && Floored(d)[i] > 0.0
  {
  }

  /** Every relative depth lies in [0, 255], and a non-empty grid reaches 0 at its nearest
      pixel. */
  lemma RelativeDepthRange(d: seq<real>, ops: Ops)
    requires ValidOps(ops)
    ensures var r := DepthFromDisparity(d, false, 0.0, 0.0, ops);
      && (forall i :: 0 <= i < |d| ==> 0.0 <= r[i] <= DisplayMax)
      && (|d| > 0 ==> exists i :: 0 <= i < |d| && r[i] == 0.0)
  {
    FlooredPositive(d);
    var filtered := Floored(d);
    var rel := Reciprocal(filtered);
    if |d| > 0 {
      PercentilePositive(rel, ops);
      var s := ClipToPercentile(rel, ops.percentile(rel, ClipPercentile));
      var m := SeqMin(s);
      var k :| 0 <= k < |s| && s[k] == m;
      assert DepthFromDisparity(d, false, 0.0, 0.0, ops) == NormalizeMinMax(s);
      assert NormalizeMinMax(s)[k] == 0.0;
    }
  }

  /** Pixels at or beyond the 95th percentile of relative depth all come out as 255 as soon as
      one pixel lies below it: the clip makes the far end of the scene saturate. */
  lemma FarPixelsSaturate(d: seq<real>, ops: Ops, i: nat, j: nat)
    requires ValidOps(ops)
    requires i < |d| && j < |d|
    requires var rel := Reciprocal(Floored(d));
      rel[i] >= ops.percentile(rel, ClipPercentile) > rel[j]
    ensures DepthFromDisparity(d, false, 0.0, 0.0, ops)[i] == DisplayMax
  {
    FlooredPositive(d);
    var rel := Reciprocal(Floored(d));
    PercentilePositive(rel, ops);
    var p95 := ops.percentile(rel, ClipPercentile);
    var s := ClipToPercentile(rel, p95);
    assert DepthFromDisparity(d, false, 0.0, 0.0, ops) == NormalizeMinMax(s);
    assert s[j] == ClipScaled(rel[j], p95);
    NormalizeTop(s, i, j);
  }

  /** In a grid of values at most 1 that is not constant, every 1 is rescaled to 255. */
  lemma NormalizeTop(s: seq<real>, i: nat, j: nat)
    requires i < |s| && j < |s|
    requires forall k :: 0 <= k < |s| ==> s[k] <= 1.0
    requires s[i] == 1.0 && s[j] < 1.0
    ensures NormalizeMinMax(s)[i] == DisplayMax
  {
    assert SeqMax(s) == 1.0;
    assert SeqMin(s) <= s[j];
  }

  /** A larger disparity never gives a larger relative depth: nearer objects are never shown
      farther away. */
  lemma NearerIsNotDeeper(d: seq<real>, ops: Ops, i: nat, j: nat)
    requires ValidOps(ops)
    requires i < |d| && j < |d|
    requires FloorDisparity(d[i]) <= FloorDisparity(d[j])
    ensures DepthFromDisparity(d, false, 0.0, 0.0, ops)[j] <= DepthFromDisparity(d, false, 0.0, 0.0, ops)[i]
  {
    FlooredPositive(d);
    var rel := Reciprocal(Floored(d));
    PercentilePositive(rel, ops);
    var p95 := ops.percentile(rel, ClipPercentile);
    var s := ClipToPercentile(rel, p95);
    assert DepthFromDisparity(d, false, 0.0, 0.0, ops) == NormalizeMinMax(s);
    DivAntitone(1.0, FloorDisparity(d[i]), FloorDisparity(d[j]));
    assert rel[j] <= rel[i];
    ClipScaledMonotone(rel[j], rel[i], p95);
    RescaleMonotone(s[j], s[i], SeqMin(s), SeqMax(s));
  }

  /** `get_depth_calculation_type`: index 1 (manual parameters) and 2 (calibration file) select
      metric depth in metres; index 0 and every other index select relative depth. */
  function GetDepthCalculationType(index: int): (r: (bool, string, string))
    ensures r.0 <==> index == 1 || index == 2
    ensures r.0 ==> r.2 == "米"
    ensures !r.0 ==> r == (false, "相对深度（归一化）", "归一化值")
    ensures index == 1 ==> r.1 == "绝对深度（手动参数）"
    ensures index == 2 ==> r.1 == "绝对深度（标定文件）"
  {
    if index == 0 then (false, "相对深度（归一化）", "归一化值")
    else if index == 1 then (true, "绝对深度（手动参数）", "米")
    else if index == 2 then (true, "绝对深度（标定文件）", "米")
    else (false, "相对深度（归一化）", "归一化值")
  }

  /** The label `save_result` writes into the parameter file: the list entry for an index below 3
      (Python's negative indices count from the end, and one below -3 raises `IndexError`), and
      `未知` from 3 on. */
  function SavedDepthTypeLabel(index: int): (name: Option<string>)
    ensures name.None? <==> index < -3
  {
    var depthTypes := ["相对深度（归一化）", "绝对深度（手动参数）", "绝对深度（标定文件）"];
    if index >= 3 then Some("未知")
    else if index >= 0 then Some(depthTypes[index])
    else if index >= -3 then Some(depthTypes[3 + index])
    else None
  }

  /** The saved label names the same calculation type as `get_depth_calculation_type` for the
      three real entries of the combo box, and the parameter file records the focal length and
      baseline exactly for the metric ones among them. */
  lemma SavedLabelAgrees(index: int)
    requires 0 <= index
    ensures index < 3 ==> SavedDepthTypeLabel(index) == Some(GetDepthCalculationType(index).1)
    ensures index >= 3 ==> (SavedDepthTypeLabel(index) == Some("未知") &&
              GetDepthCalculationType(index).1 != "未知")
    ensures index < 3 ==> (index > 0 <==> GetDepthCalculationType(index).0)
  {
  }
}
