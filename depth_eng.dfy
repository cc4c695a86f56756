/** `compute_depth_from_disparity` and `get_depth_calculation_type` of the English version of the
    tool, as functions of the disparity grid (row-major). The metric branch is the one both
    versions share (`DisparityDepth`); the relative branch keeps the pixels whose disparity exceeds
    0.5, inverts them, normalises by one of four methods and quantises to 8 bits. The in-place
    passes over the tool's arrays are the methods of `ToolEng.StereoVisionTool`. */
module DepthEng {
  import opened Wrappers
  import opened Stats
  import opened Library
  import opened DisparityDepth

  /** Pixels whose filtered disparity is at most this value are invalid in relative mode. */
  const MinValidDisparity: real := 0.5

  /** Added to the relative depth before its logarithm is taken. */
  const LogEpsilon: real := 0.000001

  /** The normalisation methods the relative branch knows. */
  const KnownMethods: set<string> := {"percentile", "minmax", "log", "adaptive"}

  /** Any other method name leaves `depth_normalized` unbound, and reading it raises. */
  datatype DepthError = UnboundNormalization(normalization: string)

  /** `disparity_filtered > min_valid_disparity`. */
  function ValidMask(filtered: seq<real>): (mask: seq<bool>)
    ensures |mask| == |filtered|
  {
    seq(|filtered|, i requires 0 <= i < |filtered| => filtered[i] > MinValidDisparity)
  }

  /** `relative_depth`: zeros, with the reciprocal of the disparity written at every valid pixel. */
  function InverseWhereValid(filtered: seq<real>): (rel: seq<real>)
    ensures |rel| == |filtered|
    ensures forall i :: 0 <= i < |filtered| && filtered[i] > MinValidDisparity ==>
              rel[i] > 0.0 && rel[i] * filtered[i] == 1.0
    ensures forall i :: 0 <= i < |filtered| && filtered[i] <= MinValidDisparity ==> rel[i] == 0.0
  {
    seq(|filtered|, i requires 0 <= i < |filtered| =>
      if filtered[i] > MinValidDisparity then 1.0 / filtered[i] else 0.0)
  }

  /** `np.clip(x, lo, hi)` followed by the rescale to that range: always in [0, 1], 0 at or below
      `lo`, and 1 at or above `hi` when the range is not empty. */
  function ClipRescale(x: real, lo: real, hi: real): (r: real)
    ensures 0.0 <= r <= 1.0
    ensures x <= lo ==> r == 0.0
    ensures lo < hi && hi <= x ==> r == 1.0
  {
    Rescale(Clip(x, lo, hi), lo, hi)
  }

  lemma ClipRescaleMonotone(x: real, y: real, lo: real, hi: real)
    requires x <= y
    ensures ClipRescale(x, lo, hi) <= ClipRescale(y, lo, hi)
  {
    if lo <= hi {
      ClipMonotone(x, y, lo, hi);
      RescaleMonotone(Clip(x, lo, hi), Clip(y, lo, hi), lo, hi);
    }
  }

  /** `astype(np.uint8)` of a value already clipped into [0, 255]: the fractional part is cut. */
  function ToByte(x: real): (b: Byte)
    requires 0.0 <= x <= 255.0
    ensures b as real <= x < b as real + 1.0
  {
    x.Floor
  }

  /** Step 5 for one normalised value: times 255, clipped to [0, 255], cut to an 8-bit integer. */
  function Quantize(x: real): (b: Byte)
    ensures x <= 0.0 ==> b == 0
    ensures x >= 1.0 ==> b == 255
    ensures 0.0 <= x <= 1.0 ==> b as real <= 255.0 * x < b as real + 1.0
  {
    ToByte(Clip(x * 255.0, 0.0, 255.0))
  }

  lemma QuantizeMonotone(x: real, y: real)
    requires x <= y
    ensures Quantize(x) <= Quantize(y)
  {
    ClipMonotone(x * 255.0, y * 255.0, 0.0, 255.0);
  }

  /** Quantisation of a whole grid. */
  function Quantized(n: seq<real>): (bytes: seq<Byte>)
    ensures |bytes| == |n|
  {
    seq(|n|, i requires 0 <= i < |n| => Quantize(n[i]))
  }

  /** `astype(np.float32)` of an 8-bit image. */
  function AsReals(bytes: seq<Byte>): (r: seq<real>)
    ensures |r| == |bytes|
    ensures forall i :: 0 <= i < |bytes| ==> r[i] == r[i].Floor as real && 0.0 <= r[i] <= 255.0
  {
    seq(|bytes|, i requires 0 <= i < |bytes| => bytes[i] as real)
  }

  /** Method `percentile`: clip to the 1st and 99th percentiles of the valid values and rescale. */
  function PercentileNormalized(rel: seq<real>, valid: seq<real>, ops: Ops): (n: seq<real>)
    ensures |n| == |rel|
    ensures forall i :: 0 <= i < |rel| ==> 0.0 <= n[i] <= 1.0
  {
    var p1, p99 := ops.percentile(valid, 1.0), ops.percentile(valid, 99.0);
    seq(|rel|, i requires 0 <= i < |rel| => ClipRescale(rel[i], p1, p99))
  }

  /** Method `minmax`: rescale by the smallest and largest valid value, without clipping. */
  function MinMaxNormalized(rel: seq<real>, valid: seq<real>): (n: seq<real>)
    requires |valid| > 0
    ensures |n| == |rel|
    ensures forall i :: 0 <= i < |rel| && SeqMin(valid) <= rel[i] <= SeqMax(valid) ==> 0.0 <= n[i] <= 1.0
  {
    var lo, hi := SeqMin(valid), SeqMax(valid);
    seq(|rel|, i requires 0 <= i < |rel| => Rescale(rel[i], lo, hi))
  }

  /** `np.log(relative_depth + 1e-6)` over the whole grid. */
  function LogDepth(rel: seq<real>, ops: Ops): (l: seq<real>)
    ensures |l| == |rel|
  {
    seq(|rel|, i requires 0 <= i < |rel| => ops.log(rel[i] + LogEpsilon))
  }

  /** Method `log`: the percentile method applied to the logarithm of the relative depth, the
      percentiles being taken over the valid pixels. */
  function LogNormalized(rel: seq<real>, mask: seq<bool>, ops: Ops): (n: seq<real>)
    requires |rel| == |mask|
    ensures |n| == |rel|
    ensures forall i :: 0 <= i < |rel| ==> 0.0 <= n[i] <= 1.0
  {
    var l := LogDepth(rel, ops);
    var logValid := Select(l, mask);
    var p1, p99 := ops.percentile(logValid, 1.0), ops.percentile(logValid, 99.0);
    seq(|rel|, i requires 0 <= i < |rel| => ClipRescale(l[i], p1, p99))
  }

  /** Method `adaptive`: clip to the 5th and 95th percentiles, rescale to 8 bits, equalise with
      CLAHE and scale back to [0, 1]. */
  function AdaptiveNormalized(rel: seq<real>, valid: seq<real>, ops: Ops, height: nat, width: nat): (n: seq<real>)
    ensures forall i :: 0 <= i < |n| ==> 0.0 <= n[i] <= 1.0
  {
    var p5, p95 := ops.percentile(valid, 5.0), ops.percentile(valid, 95.0);
    var temp := seq(|rel|, i requires 0 <= i < |rel| => ToByte(ClipRescale(rel[i], p5, p95) * 255.0));
    var enhanced := ops.clahe(temp, height, width);
    seq(|enhanced|, i requires 0 <= i < |enhanced| => enhanced[i] as real / 255.0)
  }

  /** Step 4: the normalised grid for `normalization`, or the error of an unknown method name. */
  function Normalized(normalization: string, rel: seq<real>, mask: seq<bool>, ops: Ops, height: nat, width: nat)
    : (r: Result<seq<real>, DepthError>)
    requires |rel| == |mask| && CountTrue(mask) > 0
    ensures r.Success? <==> normalization in KnownMethods
    ensures r.Failure? ==> r.error == UnboundNormalization(normalization)
  {
    var valid := Select(rel, mask);
    if normalization == "percentile" then Success(PercentileNormalized(rel, valid, ops))
    else if normalization == "minmax" then Success(MinMaxNormalized(rel, valid))
    else if normalization == "log" then Success(LogNormalized(rel, mask, ops))
    else if normalization == "adaptive" then Success(AdaptiveNormalized(rel, valid, ops, height, width))
    else Failure(UnboundNormalization(normalization))
  }

  /** The 8-bit grid of the relative branch before the median filter. */
  function QuantizedDepth(filtered: seq<real>, normalization: string, ops: Ops, height: nat, width: nat)
    : (r: Result<seq<Byte>, DepthError>)
    requires CountTrue(ValidMask(filtered)) > 0
    ensures r.Success? <==> normalization in KnownMethods
  {
    var n :- Normalized(normalization, InverseWhereValid(filtered), ValidMask(filtered), ops, height, width);
    Success(Quantized(n))
  }

  /** The relative branch on the filtered grid: all zeros when no pixel is valid (whatever the
      normalization), else the quantised grid, median-filtered when more than 100 pixels are valid. */
  function RelativeDepth(filtered: seq<real>, normalization: string, ops: Ops, height: nat, width: nat)
    : Result<seq<real>, DepthError>
  {
    var count := CountTrue(ValidMask(filtered));
    if count == 0 then Success(seq(|filtered|, i => 0.0))
    else
      var bytes :- QuantizedDepth(filtered, normalization, ops, height, width);
      Success(AsReals(if count > 100 then ops.medianBlur(bytes, height, width) else bytes))
  }

  /** The whole conversion: metric depth from the calibration, or relative depth. */
  function DepthFromDisparity(d: seq<real>, useCalib: bool, focal: real, baseline: real, normalization: string,
                              ops: Ops, height: nat, width: nat): Result<seq<real>, DepthError>
  {
    if useCalib then Success(MetricDepth(focal, baseline, d))
    else RelativeDepth(Floored(d), normalization, ops, height, width)
  }

  /** A pixel is valid exactly when its original disparity exceeds 0.5: the 0.1 written over
      non-positive disparities never passes the threshold. */
  lemma ValidMaskOfFloored(d: seq<real>)
    ensures forall i :: 0 <= i < |d| ==> (ValidMask(Floored(d))[i] <==> d[i] > MinValidDisparity)
  {
  }

  /** With no disparity above 0.5 the relative branch returns a zero grid of the input's size,
      for every normalization name (the unknown-normalization error is never reached). */
  lemma NoValidPixels(d: seq<real>, normalization: string, ops: Ops, height: nat, width: nat)
    requires forall i :: 0 <= i < |d| ==> d[i] <= MinValidDisparity
    ensures DepthFromDisparity(d, false, 0.0, 0.0, normalization, ops, height, width) ==
              Success(seq(|d|, i => 0.0))
  {
    var mask := ValidMask(Floored(d));
    ValidMaskOfFloored(d);
    CountTrueZero(mask);
  }

  /** The relative branch raises exactly when some pixel is valid and the normalization is not one of
      the four known names; the metric branch never raises. */
  lemma UnknownMethodRaises(d: seq<real>, useCalib: bool, focal: real, baseline: real, normalization: string,
                            ops: Ops, height: nat, width: nat)
    ensures DepthFromDisparity(d, useCalib, focal, baseline, normalization, ops, height, width).Failure? <==>
              !useCalib && normalization !in KnownMethods && exists i :: 0 <= i < |d| && d[i] > MinValidDisparity
  {
    var mask := ValidMask(Floored(d));
    ValidMaskOfFloored(d);
    CountTrueZero(mask);
    if !useCalib && normalization !in KnownMethods && exists i :: 0 <= i < |d| && d[i] > MinValidDisparity {
      var i :| 0 <= i < |d| && d[i] > MinValidDisparity;
      assert mask[i];
    }
  }

  /** Every relative depth is a whole number in [0, 255], and the grid keeps its size (given
      library filters that keep the image size). */
  lemma RelativeDepthIsByteGrid(d: seq<real>, normalization: string, ops: Ops, height: nat, width: nat)
    requires ValidOps(ops)
    ensures var r := DepthFromDisparity(d, false, 0.0, 0.0, normalization, ops, height, width);
      r.Success? ==> (|r.value| == |d| &&
        forall i :: 0 <= i < |d| ==> r.value[i] == r.value[i].Floor as real && 0.0 <= r.value[i] <= 255.0)
  {
    var filtered := Floored(d);
    var count := CountTrue(ValidMask(filtered));
    if count > 0 && normalization in KnownMethods {
      var rel := InverseWhereValid(filtered);
      var mask := ValidMask(filtered);
      var n := Normalized(normalization, rel, mask, ops, height, width).value;
      if normalization == "adaptive" {
        var valid := Select(rel, mask);
        var p5, p95 := ops.percentile(valid, 5.0), ops.percentile(valid, 95.0);
        var temp := seq(|rel|, i requires 0 <= i < |rel| => ToByte(ClipRescale(rel[i], p5, p95) * 255.0));
        assert |ops.clahe(temp, height, width)| == |temp|;
      }
      assert |n| == |d|;
    }
  }

  /** Every valid relative depth is positive, so every value the percentiles are taken over is. */
  lemma ValidValuesPositive(filtered: seq<real>)
    ensures var mask := ValidMask(filtered);
      forall k :: 0 <= k < |Select(InverseWhereValid(filtered), mask)| ==>
        0.0 < Select(InverseWhereValid(filtered), mask)[k]
  {
    SelectAbove(InverseWhereValid(filtered), ValidMask(filtered), 0.0);
  }

  /** Under `percentile`, `minmax` and `log`, every invalid pixel is 0 in the 8-bit grid before
      the median filter, and stays 0 in the result when the filter does not run (at most 100
      valid pixels). */
  lemma InvalidPixelsAreZero(d: seq<real>, normalization: string, ops: Ops, height: nat, width: nat, i: nat)
    requires ValidOps(ops)
    requires normalization == "percentile" || normalization == "minmax" || normalization == "log"
    requires exists j :: 0 <= j < |d| && d[j] > MinValidDisparity
    requires i < |d| && d[i] <= MinValidDisparity
    ensures var filtered := Floored(d);
      && CountTrue(ValidMask(filtered)) > 0
      && QuantizedDepth(filtered, normalization, ops, height, width).value[i] == 0
      && (CountTrue(ValidMask(filtered)) <= 100 ==>
            DepthFromDisparity(d, false, 0.0, 0.0, normalization, ops, height, width).value[i] == 0.0)
  {
    var filtered := Floored(d);
    var mask := ValidMask(filtered);
    var rel := InverseWhereValid(filtered);
    var j :| 0 <= j < |d| && d[j] > MinValidDisparity;
    ValidMaskOfFloored(d);
    CountTrueZero(mask);
    NormalizedZeroAt(normalization, rel, mask, ops, height, width, i);
  }

  /** Under `percentile`, `minmax` and `log` the 8-bit grid keeps the depth order of the valid
      pixels: a pixel with the larger disparity (nearer) never gets the larger value. */
  lemma NearerIsNotDeeper(d: seq<real>, normalization: string, ops: Ops, height: nat, width: nat, i: nat, j: nat)
    requires ValidOps(ops)
    requires normalization == "percentile" || normalization == "minmax" || normalization == "log"
    requires i < |d| && j < |d| && MinValidDisparity < d[i] <= d[j]
    ensures var filtered := Floored(d);
      && CountTrue(ValidMask(filtered)) > 0
      && QuantizedDepth(filtered, normalization, ops, height, width).value[j] <=
         QuantizedDepth(filtered, normalization, ops, height, width).value[i]
  {
    var filtered := Floored(d);
    var mask := ValidMask(filtered);
    var rel := InverseWhereValid(filtered);
    ValidMaskOfFloored(d);
    CountTrueZero(mask);
    var n := Normalized(normalization, rel, mask, ops, height, width).value;
    assert rel[j] <= rel[i] by {
      DivAntitone(1.0, d[i], d[j]);
    }
    if normalization == "percentile" {
      var valid := Select(rel, mask);
      ClipRescaleMonotone(rel[j], rel[i], ops.percentile(valid, 1.0), ops.percentile(valid, 99.0));
    } else if normalization == "minmax" {
      var valid := Select(rel, mask);
      RescaleMonotone(rel[j], rel[i], SeqMin(valid), SeqMax(valid));
    } else {
      var l := LogDepth(rel, ops);
      var logValid := Select(l, mask);
      assert l[j] <= l[i];
      ClipRescaleMonotone(l[j], l[i], ops.percentile(logValid, 1.0), ops.percentile(logValid, 99.0));
    }
    QuantizeMonotone(n[j], n[i]);
  }

  /** Under `minmax`, the valid pixel with the smallest relative depth (the nearest) becomes 0,
      and the one with the largest becomes 255 when the valid values are not all equal. */
  lemma MinMaxEnds(d: seq<real>, ops: Ops, height: nat, width: nat, i: nat)
    requires i < |d| && d[i] > MinValidDisparity
    ensures var filtered := Floored(d);
      var rel := InverseWhereValid(filtered);
      var valid := Select(rel, ValidMask(filtered));
      && |valid| > 0
      && (rel[i] == SeqMin(valid) ==> QuantizedDepth(filtered, "minmax", ops, height, width).value[i] == 0)
      && (rel[i] == SeqMax(valid) && SeqMin(valid) < SeqMax(valid) ==>
            QuantizedDepth(filtered, "minmax", ops, height, width).value[i] == 255)
  {
    var filtered := Floored(d);
    var mask := ValidMask(filtered);
    var rel := InverseWhereValid(filtered);
    ValidMaskOfFloored(d);
    CountTrueZero(mask);
    SelectHas(rel, mask, i);
  }

  /** `get_depth_calculation_type`: index 1 (manual parameters) and 2 (calibration file) select
      metric depth in metres; index 0 and every other index select relative depth. */
  function GetDepthCalculationType(index: int): (r: (bool, string, string))
    ensures r.0 <==> index == 1 || index == 2
    ensures r.0 ==> r.2 == "meters"
    ensures !r.0 ==> r == (false, "Relative depth (normalized)", "normalized value")
    ensures index == 1 ==> r.1 == "Absolute depth (manual parameters)"
    ensures index == 2 ==> r.1 == "Absolute depth (calibration file)"
  {
    if index == 0 then (false, "Relative depth (normalized)", "normalized value")
    else if index == 1 then (true, "Absolute depth (manual parameters)", "meters")
    else if index == 2 then (true, "Absolute depth (calibration file)", "meters")
    else (false, "Relative depth (normalized)", "normalized value")
  }

  /** The label `save_result` writes into the parameter file: the list entry for an index below 3
      (Python's negative indices count from the end, and one below -3 raises `IndexError`), and
      `Unknown` from 3 on. */
  function SavedDepthTypeLabel(index: int): (name: Option<string>)
    ensures name.None? <==> index < -3
  {
    var depthTypes := ["Relative depth (normalized)", "Absolute depth (manual parameters)",
                       "Absolute depth (calibration file)"];
    if index >= 3 then Some("Unknown")
    else if index >= 0 then Some(depthTypes[index])
    else if index >= -3 then Some(depthTypes[3 + index])
    else None
  }

  /** The saved label names the same calculation type as `get_depth_calculation_type` for the
      three real entries of the combo box, and differs from it for an index of 3 or more. The
      parameter file records the focal length and baseline exactly for the metric indices 1 and 2
      among them. */
  lemma SavedLabelAgrees(index: int)
    requires 0 <= index
    ensures index < 3 ==> SavedDepthTypeLabel(index) == Some(GetDepthCalculationType(index).1)
    ensures index >= 3 ==> (SavedDepthTypeLabel(index) == Some("Unknown") &&
              GetDepthCalculationType(index).1 != "Unknown")
    ensures index < 3 ==> (index > 0 <==> GetDepthCalculationType(index).0)
  {
  }

  /** An invalid pixel (relative depth 0, below every valid value) normalises to at most 0 under
      `percentile`, `minmax` and `log`. */
  lemma NormalizedZeroAt(normalization: string, rel: seq<real>, mask: seq<bool>, ops: Ops, height: nat, width: nat, i: nat)
    requires ValidOps(ops)
    requires normalization == "percentile" || normalization == "minmax" || normalization == "log"
    requires |rel| == |mask| && CountTrue(mask) > 0
    requires forall k :: 0 <= k < |rel| && mask[k] ==> rel[k] > 0.0
    requires i < |rel| && !mask[i] && rel[i] == 0.0
    ensures Normalized(normalization, rel, mask, ops, height, width).value[i] <= 0.0
  {
    var valid := Select(rel, mask);
    CountTrueZero(mask);
    var j :| 0 <= j < |mask| && mask[j];
    SelectHas(rel, mask, j);
    SelectAbove(rel, mask, 0.0);
    if normalization == "percentile" {
      assert ops.percentile(valid, 1.0) >= SeqMin(valid) > 0.0;
    } else if normalization == "minmax" {
      assert SeqMin(valid) > 0.0;
    } else {
      var l := LogDepth(rel, ops);
      var floorLog := ops.log(LogEpsilon);
      assert forall k :: 0 <= k < |l| && mask[k] ==> floorLog < l[k];
      SelectAbove(l, mask, floorLog);
      var logValid := Select(l, mask);
      SelectHas(l, mask, j);
      assert ops.percentile(logValid, 1.0) >= SeqMin(logValid) > floorLog;
      assert l[i] == floorLog;
    }
  }
}
