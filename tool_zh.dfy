/** The state of the Chinese version of the tool (`StereoVisionTool`) that its non-UI methods
    read and update: the loaded image pair, the `calib_data` dictionary, the focal length and
    baseline, and the last BM and SGBM depth maps. The calibration reader and the depth
    conversion run as the source's loops; each is specified by the functions of `CalibZh` and
    `DepthZh`. */
module ToolZh {
  import opened Wrappers
  import opened Text
  import opened Stats
  import opened Library
  import opened DisparityDepth
  import opened StereoRules
  import opened CalibZh
  import opened DepthZh

  /** `relative_depth = 1.0 / disparity_filtered`, into a fresh array. */
  method ReciprocalOf(filtered: array<real>) returns (rel: array<real>)
    requires forall k :: 0 <= k < filtered.Length ==> filtered[k] > 0.0
    ensures fresh(rel)
    ensures rel[..] == Reciprocal(filtered[..])
  {
    rel := new real[filtered.Length];
    var i := 0;
    while i < filtered.Length
      invariant 0 <= i <= filtered.Length
      invariant forall k :: 0 <= k < i ==> rel[k] == 1.0 / filtered[k]
    {
      rel[i] := 1.0 / filtered[i];
      i := i + 1;
    }
  }

  /** `np.clip(relative_depth, 0, p95)` followed by `/ p95`, into a fresh array. */
  method ClipToPercentileOf(rel: array<real>, p95: real) returns (scaled: array<real>)
    requires p95 > 0.0
    ensures fresh(scaled)
    ensures scaled[..] == ClipToPercentile(rel[..], p95)
  {
    scaled := new real[rel.Length];
    var i := 0;
    while i < rel.Length
      invariant 0 <= i <= rel.Length
      invariant forall k :: 0 <= k < i ==> scaled[k] == ClipScaled(rel[k], p95)
    {
      scaled[i] := Clip(rel[i], 0.0, p95) / p95;
      i := i + 1;
    }
  }

  /** The relative branch over the filtered copy: reciprocal, clip at the 95th percentile and
      divide by it, then `cv2.normalize` into a fresh grid. */
  method RelativeDepthOf(filtered: array<real>, ops: Ops) returns (depth: array<real>)
    requires ValidOps(ops)
    requires forall k :: 0 <= k < filtered.Length ==> filtered[k] > 0.0
    ensures fresh(depth)
    ensures depth[..] == RelativeDepth(filtered[..], ops)
  {
    ghost var f := filtered[..];
    var rel := ReciprocalOf(filtered);
    ghost var r := Reciprocal(f);
    if rel.Length > 0 {
      PercentilePositive(r, ops);
      var p95 := ops.percentile(rel[..], ClipPercentile);
      rel := ClipToPercentileOf(rel, p95);
      assert rel[..] == ClipToPercentile(r, ops.percentile(r, ClipPercentile));
    } else {
      assert rel[..] == r == [];
    }
    depth := NormalizeMinMaxOf(rel);
  }

  /** `cv2.normalize(..., 0, 255, NORM_MINMAX)` into a fresh grid. */
  method NormalizeMinMaxOf(values: array<real>) returns (depth: array<real>)
    ensures fresh(depth)
    ensures depth[..] == NormalizeMinMax(values[..])
  {
    var normalized := NormalizeMinMax(values[..]);
    depth := new real[|normalized|](i requires 0 <= i < |normalized| => normalized[i]);
    assert depth[..] == normalized;
  }

  class StereoVisionTool {
    var leftImage: Option<GrayImage>
    var rightImage: Option<GrayImage>
    var calibData: Option<map<string, string>>
    var focalLength: real
    var baseline: real
    var bmDepth: array?<real>
    var sgbmDepth: array?<real>

    /** No images, no calibration data, no results, and the default focal length of 1000
        pixels and baseline of 0.54 m. */
    constructor ()
      ensures leftImage.None? && rightImage.None? && calibData.None?
      ensures focalLength == 1000.0 && baseline == 0.54
      ensures bmDepth == null && sgbmDepth == null
    {
      leftImage, rightImage, calibData := None, None, None;
      focalLength, baseline := 1000.0, 0.54;
      bmDepth, sgbmDepth := null, null;
    }

    /** `parse_calib_file` on the text of a file: `calib_data` is emptied, then every line with
        a separator stores its key and value, and every focal or baseline key with a numeric
        value overwrites the focal length or the baseline on the spot. */
    method ParseCalibFile(content: string, parse: RealParser)
      modifies this`calibData, this`focalLength, this`baseline
      ensures calibData == Some(Dict(Entries(Split(content, '\n'))))
      ensures Lengths(focalLength, baseline) ==
                ReadLengths(Entries(Split(content, '\n')), old(Lengths(focalLength, baseline)), parse)
    {
      var lines := Split(content, '\n');
      ghost var start := Lengths(focalLength, baseline);
      calibData := Some(map[]);
      var i := 0;
      while i < |lines|
        invariant 0 <= i <= |lines|
        invariant calibData == Some(Dict(Entries(lines[..i])))
        invariant Lengths(focalLength, baseline) == ReadLengths(Entries(lines[..i]), start, parse)
      {
        ReadLine(lines, i, start, parse);
        i := i + 1;
      }
      assert lines[..i] == lines;
    }

    /** The body of the loop for line `i`: a line with an entry stores its key and value in
        `calib_data` and applies its focal/baseline branch; so the dictionary and the lengths go
        from those of the first `i` lines to those of the first `i + 1`. */
    method ReadLine(lines: seq<string>, i: nat, ghost start: Lengths, parse: RealParser)
      requires i < |lines|
      requires calibData == Some(Dict(Entries(lines[..i])))
      requires Lengths(focalLength, baseline) == ReadLengths(Entries(lines[..i]), start, parse)
      modifies this`calibData, this`focalLength, this`baseline
      ensures calibData == Some(Dict(Entries(lines[..i + 1])))
      ensures Lengths(focalLength, baseline) == ReadLengths(Entries(lines[..i + 1]), start, parse)
    {
      ReadStep(lines, i, start, parse);
      var e := SplitLine(lines[i]);
      if e.Some? {
        calibData := Some(calibData.value[e.value.key := e.value.value]);
        ApplyEntry(e.value, parse);
      }
    }

    /** The body of the loop for a line with an entry: a focal key whose value is a number sets
        the focal length, otherwise a baseline key whose value is a number sets the baseline. */
    method ApplyEntry(e: Entry, parse: RealParser)
      modifies this`focalLength, this`baseline
      ensures Lengths(focalLength, baseline) == EntryEffect(old(Lengths(focalLength, baseline)), e, parse)
    {
      if IsFocalKey(e.key) {
        match parse(e.value) {
          case Some(x) => focalLength := x;
          case None =>
        }
      } else if Contains(Lower(e.key), "baseline") {
        match parse(e.value) {
          case Some(x) => baseline := x;
          case None =>
        }
      }
    }

    /** `compute_depth_from_disparity`: `None` for no disparity; otherwise a fresh depth grid
        equal to `DepthFromDisparity` of the current focal length and baseline. The disparity
        grid itself is only read. */
    method ComputeDepthFromDisparity(disparity: array?<real>, useCalib: bool, ops: Ops)
      returns (depth: array?<real>)
      requires ValidOps(ops)
      ensures disparity == null ==> depth == null
      ensures disparity != null ==>
        && depth != null && fresh(depth)
        && depth[..] == DepthFromDisparity(disparity[..], useCalib, focalLength, baseline, ops)
    {
      if disparity == null {
        return null;
      }
      var filtered := CopyOf(disparity);
      FloorNonPositive(filtered);
      if useCalib {
        depth := MetricDepthMap(focalLength, baseline, filtered, disparity[..]);
        return;
      }
      FlooredPositive(disparity[..]);
      depth := RelativeDepthOf(filtered, ops);
    }

    /** The part `generate_bm_depth` and `generate_sgbm_depth` share: check the pair, fix the
        block size, run the matcher, and convert its output with `toDisparity`. */
    method MatchPair(blockSize: int, matcher: Matcher, toDisparity: seq<int> -> seq<real>,
                     depthTypeIndex: int, ops: Ops)
      returns (outcome: GenerateOutcome, depth: array?<real>)
      requires ValidOps(ops)
      ensures leftImage.None? || rightImage.None? ==> outcome == ImagesMissing
      ensures leftImage.Some? && rightImage.Some? && !ValidateImagesSize(leftImage.value, rightImage.value) ==>
                outcome == SizeMismatch
      ensures leftImage.Some? && rightImage.Some? && ValidateImagesSize(leftImage.value, rightImage.value) ==>
        var used := OddBlockSize(blockSize);
        match matcher(leftImage.value, rightImage.value, used)
        case None => outcome == Failed
        case Some(raw) =>
          && outcome == Generated(used)
          && depth != null && fresh(depth)
          && depth[..] == DepthFromDisparity(toDisparity(raw), GetDepthCalculationType(depthTypeIndex).0,
                                             focalLength, baseline, ops)
    {
      if leftImage.None? || rightImage.None? {
        return ImagesMissing, null;
      }
      var left, right := leftImage.value, rightImage.value;
      if !ValidateImagesSize(left, right) {
        return SizeMismatch, null;
      }
      var (useCalib, _, _) := GetDepthCalculationType(depthTypeIndex);
      var used := blockSize;
      if used % 2 == 0 {
        used := used + 1;
      }
      var raw := matcher(left, right, used);
      if raw.None? {
        return Failed, null;
      }
      var disparity := toDisparity(raw.value);
      var grid := new real[|disparity|](i requires 0 <= i < |disparity| => disparity[i]);
      assert grid[..] == disparity;
      depth := ComputeDepthFromDisparity(grid, useCalib, ops);
      return Generated(used), depth;
    }

    /** `generate_bm_depth`: on success the BM result is the depth of the matcher output taken
        as disparities without the division by 16; otherwise the previous result is kept. */
    method GenerateBmDepth(blockSize: int, matcher: Matcher, depthTypeIndex: int, ops: Ops)
      returns (outcome: GenerateOutcome)
      requires ValidOps(ops)
      modifies this`bmDepth
      ensures leftImage.None? || rightImage.None? ==> outcome == ImagesMissing
      ensures leftImage.Some? && rightImage.Some? && !ValidateImagesSize(leftImage.value, rightImage.value) ==>
                outcome == SizeMismatch
      ensures !outcome.Generated? ==> bmDepth == old(bmDepth)
      ensures outcome.Generated? ==>
        && leftImage.Some? && rightImage.Some?
        && outcome.blockSize == OddBlockSize(blockSize)
        && matcher(leftImage.value, rightImage.value, outcome.blockSize).Some?
        && bmDepth != null && fresh(bmDepth)
        && bmDepth[..] == DepthFromDisparity(BmDisparity(matcher(leftImage.value, rightImage.value, outcome.blockSize).value),
                             GetDepthCalculationType(depthTypeIndex).0, focalLength, baseline, ops)
    {
      var depth;
      outcome, depth := MatchPair(blockSize, matcher, BmDisparity, depthTypeIndex, ops);
      if outcome.Generated? {
        bmDepth := depth;
      }
    }

    /** `generate_sgbm_depth`: as for BM, with the matcher output divided by 16 first. */
    method GenerateSgbmDepth(blockSize: int, matcher: Matcher, depthTypeIndex: int, ops: Ops)
      returns (outcome: GenerateOutcome)
      requires ValidOps(ops)
      modifies this`sgbmDepth
      ensures leftImage.None? || rightImage.None? ==> outcome == ImagesMissing
      ensures leftImage.Some? && rightImage.Some? && !ValidateImagesSize(leftImage.value, rightImage.value) ==>
                outcome == SizeMismatch
      ensures !outcome.Generated? ==> sgbmDepth == old(sgbmDepth)
      ensures outcome.Generated? ==>
        && leftImage.Some? && rightImage.Some?
        && outcome.blockSize == OddBlockSize(blockSize)
        && matcher(leftImage.value, rightImage.value, outcome.blockSize).Some?
        && sgbmDepth != null && fresh(sgbmDepth)
        && sgbmDepth[..] == DepthFromDisparity(SgbmDisparity(matcher(leftImage.value, rightImage.value, outcome.blockSize).value),
                               GetDepthCalculationType(depthTypeIndex).0, focalLength, baseline, ops)
    {
      var depth;
      outcome, depth := MatchPair(blockSize, matcher, SgbmDisparity, depthTypeIndex, ops);
      if outcome.Generated? {
        sgbmDepth := depth;
      }
    }

    /** `save_result` for `algorithm` (`bm` or `sgbm`), the depth-type index of its tab and the
        path chosen in the dialog: what is written, and under which names. */
    method SaveResult(algorithm: string, depthTypeIndex: int, chosen: string) returns (outcome: SaveOutcome)
      ensures !((algorithm == "bm" && bmDepth != null) || (algorithm == "sgbm" && sgbmDepth != null)) ==>
                outcome == NoResult
      ensures outcome.Saved? ==>
        && SavePaths(chosen) == Some((outcome.imageFile, outcome.paramsFile))
        && Some(outcome.depthType) == SavedDepthTypeLabel(depthTypeIndex)
        && (outcome.calibration.Some? <==> depthTypeIndex > 0)
        && (outcome.calibration.Some? ==> outcome.calibration.value == (focalLength, baseline))
      ensures (algorithm == "bm" && bmDepth != null) || (algorithm == "sgbm" && sgbmDepth != null) ==>
        && (SavedDepthTypeLabel(depthTypeIndex).None? <==> outcome == LabelRaised)
        && (SavedDepthTypeLabel(depthTypeIndex).Some? ==> (chosen == [] <==> outcome == Cancelled))
        && (SavedDepthTypeLabel(depthTypeIndex).Some? && chosen != [] ==> outcome.Saved?)
    {
      if !((algorithm == "bm" && bmDepth != null) || (algorithm == "sgbm" && sgbmDepth != null)) {
        return NoResult;
      }
      var depthType := SavedDepthTypeLabel(depthTypeIndex);
      if depthType.None? {
        return LabelRaised;
      }
      if chosen == [] {
        return Cancelled;
      }
      var image := chosen;
      if !(EndsWith(image, ".png") || EndsWith(image, ".jpg") || EndsWith(image, ".jpeg")) {
        image := image + ".png";
      }
      var params := BeforeLast(image, '.') + "_params.txt";
      var calibration := if depthTypeIndex > 0 then Some((focalLength, baseline)) else None;
      return Saved(image, params, depthType.value, calibration);
    }
  }
}
