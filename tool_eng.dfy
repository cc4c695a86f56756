/** The state of the English version of the tool (`StereoVisionTool`) that its non-UI methods
    read and update: the loaded image pair, the focal length and baseline, and the last BM and
    SGBM depth maps. The calibration reader and the depth conversion run as the source's loops
    and masked array assignments; each is specified by the functions of `CalibEng` and
    `DepthEng`. */
module ToolEng {
  import opened Wrappers
  import opened Text
  import opened Stats
  import opened Library
  import opened DisparityDepth
  import opened StereoRules
  import opened CalibEng
  import opened DepthEng

  /** What reading a calibration file ends with: values loaded (an information box), nothing
      usable found (a warning box), or an exception raised by a malformed line. */
  datatype CalibOutcome = Loaded | NothingFound | Raised(error: CalibError)

  /** The method `percentile` the Generate buttons use. */
  const DefaultNormalization := "percentile"

  /** `relative_depth = np.zeros_like(disparity_filtered)` followed by
      `relative_depth[mask_valid] = 1.0 / disparity_filtered[mask_valid]`. */
  method InvertWhereValid(filtered: array<real>) returns (rel: array<real>)
    ensures fresh(rel)
    ensures rel[..] == InverseWhereValid(filtered[..])
  {
    rel := new real[filtered.Length](i => 0.0);
    var i := 0;
    while i < filtered.Length
      invariant 0 <= i <= filtered.Length
      invariant forall k :: 0 <= k < i ==> rel[k] == InverseWhereValid(filtered[..])[k]
      invariant forall k :: i <= k < filtered.Length ==> rel[k] == 0.0
    {
      if filtered[i] > MinValidDisparity {
        rel[i] := 1.0 / filtered[i];
      }
      i := i + 1;
    }
  }

  /** The loop of `parse_calib_file`: each line's branch assigns `focal_from_file` or
      `baseline_from_file` or nothing; the result is the pair after the last line, or the
      exception of the first line that raises. */
  method ReadLines(lines: seq<string>, parse: RealParser) returns (read: Result<CalibValues, CalibError>)
    ensures read == ScanLines(lines, parse)
  {
    var focalFromFile, baselineFromFile := 0.0, 0.0;
    var i := 0;
    while i < |lines|
      invariant 0 <= i <= |lines|
      invariant ScanLines(lines[..i], parse) == Success(CalibValues(focalFromFile, baselineFromFile))
    {
      ScanPrefixStep(lines, i, CalibValues(focalFromFile, baselineFromFile), parse);
      match LineEffect(lines[i], parse) {
        case Failure(e) =>
          FailureIsFinal(lines, i + 1, parse);
          return Failure(e);
        case Success(SetFocal(x)) =>
          focalFromFile := x;
        case Success(SetBaseline(x)) =>
          baselineFromFile := x;
        case Success(Keep) =>
      }
      i := i + 1;
    }
    assert lines[..i] == lines;
    return Success(CalibValues(focalFromFile, baselineFromFile));
  }

  class StereoVisionTool {
    var leftImage: Option<GrayImage>
    var rightImage: Option<GrayImage>
    var focalLength: real
    var baseline: real
    var bmDepth: array?<real>
    var sgbmDepth: array?<real>

    /** No images, no results, and the default focal length of 1000 pixels and baseline of
        0.54 m. */
    constructor ()
      ensures leftImage.None? && rightImage.None?
      ensures focalLength == 1000.0 && baseline == 0.54
      ensures bmDepth == null && sgbmDepth == null
    {
      leftImage, rightImage := None, None;
      focalLength, baseline := 1000.0, 0.54;
      bmDepth, sgbmDepth := null, null;
    }

    /** `parse_calib_file` on the lines of a file. The lines are read in order, each overwriting
        what it names; at the end the focal length and the baseline are each replaced only by a
        positive value read, and a line that raises leaves both as they were. */
    method ParseCalibFile(lines: seq<string>, parse: RealParser) returns (outcome: CalibOutcome)
      modifies this`focalLength, this`baseline
      ensures match ScanLines(lines, parse)
        case Failure(e) =>
          outcome == Raised(e) && focalLength == old(focalLength) && baseline == old(baseline)
        case Success(v) =>
          && focalLength == (if v.focal > 0.0 then v.focal else old(focalLength))
          && baseline == (if v.baseline > 0.0 then v.baseline else old(baseline))
          && outcome == (if v.focal > 0.0 || v.baseline > 0.0 then Loaded else NothingFound)
    {
      var read := ReadLines(lines, parse);
      if read.Failure? {
        return Raised(read.error);
      }
      var focalFromFile, baselineFromFile := read.value.focal, read.value.baseline;
      if focalFromFile > 0.0 {
        focalLength := focalFromFile;
      }
      if baselineFromFile > 0.0 {
        baseline := baselineFromFile;
      }
      outcome := if focalFromFile > 0.0 || baselineFromFile > 0.0 then Loaded else NothingFound;
    }

    /** `compute_depth_from_disparity`: `None` for no disparity; otherwise a fresh depth grid
        equal to `DepthFromDisparity` of the current focal length and baseline, or the error it
        raises. The disparity grid itself is only read. */
    method ComputeDepthFromDisparity(disparity: array?<real>, useCalib: bool, normalization: string,
                                     ops: Ops, height: nat, width: nat)
      returns (r: Result<array?<real>, DepthError>)
      ensures disparity == null ==> r == Success(null)
      ensures disparity != null ==>
        var spec := DepthFromDisparity(disparity[..], useCalib, focalLength, baseline, normalization, ops, height, width);
        && (spec.Failure? ==> r == Failure(spec.error))
        && (spec.Success? ==> r.Success? && r.value != null && fresh(r.value) && r.value[..] == spec.value)
    {
      if disparity == null {
        return Success(null);
      }
      var filtered := CopyOf(disparity);
      FloorNonPositive(filtered);
      if useCalib {
        var depth := MetricDepthMap(focalLength, baseline, filtered, disparity[..]);
        return Success(depth);
      }
      var mask := ValidMask(filtered[..]);
      var count := CountTrue(mask);
      if count == 0 {
        var zeros := new real[filtered.Length](i => 0.0);
        assert zeros[..] == seq(filtered.Length, i => 0.0);
        return Success(zeros);
      }
      var rel := InvertWhereValid(filtered);
      var normalized := Normalized(normalization, rel[..], mask, ops, height, width);
      if normalized.Failure? {
        return Failure(normalized.error);
      }
      var bytes := Quantized(normalized.value);
      if count > 100 {
        bytes := ops.medianBlur(bytes, height, width);
      }
      var values := AsReals(bytes);
      var depth := new real[|values|](i requires 0 <= i < |values| => values[i]);
      assert depth[..] == values;
      return Success(depth);
    }

    /** The part `generate_bm_depth` and `generate_sgbm_depth` share: check the pair, fix the
        block size, run the matcher, and convert its output with `toDisparity`. */
    method MatchPair(blockSize: int, matcher: Matcher, toDisparity: seq<int> -> seq<real>,
                     depthTypeIndex: int, ops: Ops)
      returns (outcome: GenerateOutcome, depth: array?<real>)
      ensures leftImage.None? || rightImage.None? ==> outcome == ImagesMissing
      ensures leftImage.Some? && rightImage.Some? && !ValidateImagesSize(leftImage.value, rightImage.value) ==>
                outcome == SizeMismatch
      ensures leftImage.Some? && rightImage.Some? && ValidateImagesSize(leftImage.value, rightImage.value) ==>
        var used := OddBlockSize(blockSize);
        var left := leftImage.value;
        match matcher(left, rightImage.value, used)
        case None => outcome == Failed
        case Some(raw) =>
          && outcome == Generated(used)
          && DepthFromDisparity(toDisparity(raw), GetDepthCalculationType(depthTypeIndex).0,
                                focalLength, baseline, DefaultNormalization, ops, left.height, left.width).Success?
          && depth != null && fresh(depth)
          && depth[..] == DepthFromDisparity(toDisparity(raw), GetDepthCalculationType(depthTypeIndex).0,
                                focalLength, baseline, DefaultNormalization, ops, left.height, left.width).value
    {
      depth := null;
      if leftImage.None? || rightImage.None? {
        return ImagesMissing, null;
      }
      var left, right := leftImage.value, rightImage.value;
      if !ValidateImagesSize(left, right) {
        return SizeMismatch, null;
      }
      var (useCalib, _, _) := GetDepthCalculationType(depthTypeIndex);
      var used := blockSize;
      if used % 2 == 0 {
        used := used + 1;
      }
      var raw := matcher(left, right, used);
      if raw.None? {
        return Failed, null;
      }
      var disparity := toDisparity(raw.value);
      var grid := new real[|disparity|](i requires 0 <= i < |disparity| => disparity[i]);
      assert grid[..] == disparity;
      UnknownMethodRaises(disparity, useCalib, focalLength, baseline, DefaultNormalization, ops, left.height, left.width);
      var r := ComputeDepthFromDisparity(grid, useCalib, DefaultNormalization, ops, left.height, left.width);
      return Generated(used), r.value;
    }

    /** `generate_bm_depth`: on success the BM result is the depth of the matcher output taken as
        disparities without the division by 16; otherwise the previous result is kept. */
    method GenerateBmDepth(blockSize: int, matcher: Matcher, depthTypeIndex: int, ops: Ops)
      returns (outcome: GenerateOutcome)
      modifies this`bmDepth
      ensures leftImage.None? || rightImage.None? ==> outcome == ImagesMissing
      ensures leftImage.Some? && rightImage.Some? && !ValidateImagesSize(leftImage.value, rightImage.value) ==>
                outcome == SizeMismatch
      ensures !outcome.Generated? ==> bmDepth == old(bmDepth)
      ensures outcome.Generated? ==>
        && leftImage.Some? && rightImage.Some?
        && outcome.blockSize == OddBlockSize(blockSize)
        && matcher(leftImage.value, rightImage.value, outcome.blockSize).Some?
        && bmDepth != null && fresh(bmDepth)
        && bmDepth[..] == DepthFromDisparity(BmDisparity(matcher(leftImage.value, rightImage.value, outcome.blockSize).value),
                             GetDepthCalculationType(depthTypeIndex).0, focalLength, baseline,
                             DefaultNormalization, ops, leftImage.value.height, leftImage.value.width).value
    {
      var depth;
      outcome, depth := MatchPair(blockSize, matcher, BmDisparity, depthTypeIndex, ops);
      if outcome.Generated? {
        bmDepth := depth;
      }
    }

    /** `generate_sgbm_depth`: as for BM, with the matcher output divided by 16 first. */
    method GenerateSgbmDepth(blockSize: int, matcher: Matcher, depthTypeIndex: int, ops: Ops)
      returns (outcome: GenerateOutcome)
      modifies this`sgbmDepth
      ensures leftImage.None? || rightImage.None? ==> outcome == ImagesMissing
      ensures leftImage.Some? && rightImage.Some? && !ValidateImagesSize(leftImage.value, rightImage.value) ==>
                outcome == SizeMismatch
      ensures !outcome.Generated? ==> sgbmDepth == old(sgbmDepth)
      ensures outcome.Generated? ==>
        && leftImage.Some? && rightImage.Some?
        && outcome.blockSize == OddBlockSize(blockSize)
        && matcher(leftImage.value, rightImage.value, outcome.blockSize).Some?
        && sgbmDepth != null && fresh(sgbmDepth)
        && sgbmDepth[..] == DepthFromDisparity(SgbmDisparity(matcher(leftImage.value, rightImage.value, outcome.blockSize).value),
                               GetDepthCalculationType(depthTypeIndex).0, focalLength, baseline,
                               DefaultNormalization, ops, leftImage.value.height, leftImage.value.width).value
    {
      var depth;
      outcome, depth := MatchPair(blockSize, matcher, SgbmDisparity, depthTypeIndex, ops);
      if outcome.Generated? {
        sgbmDepth := depth;
      }
    }

    /** `save_result` for `algorithm` (`bm` or `sgbm`), the depth-type index of its tab and the
        path chosen in the dialog: what is written, and under which names. */
    method SaveResult(algorithm: string, depthTypeIndex: int, chosen: string) returns (outcome: SaveOutcome)
      ensures !((algorithm == "bm" && bmDepth != null) || (algorithm == "sgbm" && sgbmDepth != null)) ==>
                outcome == NoResult
      ensures outcome.Saved? ==>
        && SavePaths(chosen) == Some((outcome.imageFile, outcome.paramsFile))
        && Some(outcome.depthType) == SavedDepthTypeLabel(depthTypeIndex)
        && (outcome.calibration.Some? <==> depthTypeIndex > 0)
        && (outcome.calibration.Some? ==> outcome.calibration.value == (focalLength, baseline))
      ensures (algorithm == "bm" && bmDepth != null) || (algorithm == "sgbm" && sgbmDepth != null) ==>
        && (SavedDepthTypeLabel(depthTypeIndex).None? <==> outcome == LabelRaised)
        && (SavedDepthTypeLabel(depthTypeIndex).Some? ==> (chosen == [] <==> outcome == Cancelled))
        && (SavedDepthTypeLabel(depthTypeIndex).Some? && chosen != [] ==> outcome.Saved?)
    {
      if !((algorithm == "bm" && bmDepth != null) || (algorithm == "sgbm" && sgbmDepth != null)) {
        return NoResult;
      }
      var depthType := SavedDepthTypeLabel(depthTypeIndex);
      if depthType.None? {
        return LabelRaised;
      }
      if chosen == [] {
        return Cancelled;
      }
      var image := chosen;
      if !(EndsWith(image, ".png") || EndsWith(image, ".jpg") || EndsWith(image, ".jpeg")) {
        image := image + ".png";
      }
      var params := BeforeLast(image, '.') + "_params.txt";
      var calibration := if depthTypeIndex > 0 then Some((focalLength, baseline)) else None;
      return Saved(image, params, depthType.value, calibration);
    }
  }
}
