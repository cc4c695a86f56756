/** The small rules both versions of the tool apply around the matchers and when saving: the
    image-shape check, the odd block size, the fixed-point scale of the matcher output, the SGBM
    mode lookup and the names of the saved files. */
module StereoRules {
  import opened Wrappers
  import opened Text
  import opened Library

  /** A grayscale image as loaded for matching: its shape and its row-major samples. */
  datatype GrayImage = GrayImage(height: nat, width: nat, pixels: seq<Byte>)

  /** A stereo matcher configured with every parameter but the block size: given the image pair
      and the block size it returns the raw fixed-point disparities, or `None` when OpenCV
      raises. */
  type Matcher = (GrayImage, GrayImage, int) -> Option<seq<int>>

  /** What pressing a Generate button ends with. Only `Generated` stores a new depth map. */
  datatype GenerateOutcome = ImagesMissing | SizeMismatch | Failed | Generated(blockSize: int)

  /** `validate_images_size`: the pair may be matched only when the two shapes are equal; the
      samples themselves are not compared. */
  function ValidateImagesSize(left: GrayImage, right: GrayImage): (ok: bool)
    ensures ok <==> left.height == right.height && left.width == right.width
  {
    (left.height, left.width) == (right.height, right.width)
  }

  /** The block size handed to a matcher: an even value is raised by one, an odd one is kept, so
      the value used is always the smallest odd number not below the requested one. */
  function OddBlockSize(blockSize: int): (used: int)
    ensures used % 2 == 1
    ensures used == blockSize || (used == blockSize + 1 && blockSize % 2 == 0)
  {
    if blockSize % 2 == 0 then blockSize + 1 else blockSize
  }

  /** The tool writes the used block size back into its spin box; asking again with that value
      changes nothing. */
  lemma OddBlockSizeIdempotent(blockSize: int)
    ensures OddBlockSize(OddBlockSize(blockSize)) == OddBlockSize(blockSize)
  {
  }

  /** The SGBM matcher output converted to disparities: `raw.astype(float32) / 16.0`. The matcher
      reports fixed-point values with four fractional bits, so each disparity times 16 gives the
      raw value back. */
  function SgbmDisparity(raw: seq<int>): (d: seq<real>)
    ensures |d| == |raw|
    ensures forall i :: 0 <= i < |raw| ==> d[i] * 16.0 == raw[i] as real
  {
    seq(|raw|, i requires 0 <= i < |raw| => raw[i] as real / 16.0)
  }

  /** The BM matcher output as the tool uses it: converted to reals and NOT divided by 16. */
  function BmDisparity(raw: seq<int>): (d: seq<real>)
    ensures |d| == |raw|
    ensures forall i :: 0 <= i < |raw| ==> d[i] == raw[i] as real
  {
    seq(|raw|, i requires 0 <= i < |raw| => raw[i] as real)
  }

  /** For the same fixed-point output the BM path works with disparities 16 times those of the
      SGBM path, so its metric depths are 16 times smaller wherever the clamp does not apply. */
  lemma BmDisparityIsSixteenfold(raw: seq<int>, i: nat)
    requires i < |raw|
    ensures BmDisparity(raw)[i] == 16.0 * SgbmDisparity(raw)[i]
  {
  }

  /** The three SGBM algorithm modes. */
  datatype SgbmMode = ModeSgbm | ModeSgbm3Way | ModeHH

  /** `sgbm_mode_map.get(mode_text, MODE_SGBM)`: the mode named by the combo-box text, and the
      standard mode for any text the map does not hold. This is the lookup alone: the mode, like
      every SGBM parameter but the block size, is part of the `Matcher` handed to
      `GenerateSgbmDepth`. */
  function SgbmModeOf(text: string): (mode: SgbmMode)
    ensures mode == ModeSgbm3Way <==> text == "SGBM 3WAY"
    ensures mode == ModeHH <==> text == "HH"
  {
    if text == "SGBM" then ModeSgbm
    else if text == "SGBM 3WAY" then ModeSgbm3Way
    else if text == "HH" then ModeHH
    else ModeSgbm
  }

  /** `path.endswith(('.png', '.jpg', '.jpeg'))`. */
  predicate HasImageExtension(path: string) {
    EndsWith(path, ".png") || EndsWith(path, ".jpg") || EndsWith(path, ".jpeg")
  }

  /** The name the depth image is written to: the chosen path, with `.png` appended unless it
      already ends in `.png`, `.jpg` or `.jpeg`. */
  function ImagePath(path: string): (saved: string)
    ensures HasImageExtension(saved)
    ensures HasImageExtension(path) ==> saved == path
    ensures !HasImageExtension(path) ==> saved == path + ".png"
  {
    if HasImageExtension(path) then path
    else
      assert EndsWith(path + ".png", ".png");
      path + ".png"
  }

  /** The name the parameter file is written to: the image name up to its last `.`, followed by
      `_params.txt`. */
  function ParamsPath(imagePath: string): (params: string)
    ensures EndsWith(params, "_params.txt")
  {
    BeforeLast(imagePath, '.') + "_params.txt"
  }

  /** The two file names `save_result` writes for the path chosen in the dialog; an empty choice
      (the dialog was cancelled) writes nothing. */
  function SavePaths(chosen: string): (names: Option<(string, string)>)
    ensures chosen == [] <==> names.None?
  {
    if chosen == [] then None
    else
      var image := ImagePath(chosen);
      Some((image, ParamsPath(image)))
  }

  /** What `save_result` ends with: no depth map of that algorithm yet (a warning box), the
      label lookup raising `IndexError`, the dialog cancelled, or the two files written, the
      parameter file recording the depth-type label and, for a metric type, the focal length
      and baseline. */
  datatype SaveOutcome =
    | NoResult
    | LabelRaised
    | Cancelled
    | Saved(imageFile: string, paramsFile: string, depthType: string, calibration: Option<(real, real)>)

  /** The parameter-file name of `stem.ext`, for an extension without a dot, is `stem_params.txt`. */
  lemma ParamsPathOfStem(stem: string, ext: string)
    requires '.' !in ext
    ensures ParamsPath(stem + ['.'] + ext) == stem + "_params.txt"
  {
    BeforeLastOfSuffix(stem, '.', ext);
  }

  /** The parameter file sits beside the image under the image's own stem: a path without an
      image extension keeps all of its text (dots included) before `_params.txt`, and a path with
      one loses exactly that extension. The two names never coincide. */
  lemma SavePathsStem(chosen: string)
    requires chosen != []
    ensures var (image, params) := SavePaths(chosen).value;
      && (!HasImageExtension(chosen) ==> params == chosen + "_params.txt")
      && (EndsWith(chosen, ".png") || EndsWith(chosen, ".jpg") ==>
            params == chosen[..|chosen| - 4] + "_params.txt")
      && (EndsWith(chosen, ".jpeg") ==> params == chosen[..|chosen| - 5] + "_params.txt")
      && image != params
  {
    var image := ImagePath(chosen);
    assert SavePaths(chosen).value == (image, ParamsPath(image));
    ExtensionsExclusive(chosen);
    if !HasImageExtension(chosen) {
      AppendedParams(chosen);
    } else if EndsWith(chosen, ".png") {
      StrippedParams(chosen, ".png");
    } else if EndsWith(chosen, ".jpg") {
      StrippedParams(chosen, ".jpg");
    } else {
      StrippedParams(chosen, ".jpeg");
    }
    ImageNameEndsInG(image);
  }

  /** A name without an image extension gets `.png`, which the parameter file drops again. */
  lemma AppendedParams(chosen: string)
    requires !HasImageExtension(chosen)
    ensures ParamsPath(ImagePath(chosen)) == chosen + "_params.txt"
  {
    assert ImagePath(chosen) == chosen + ['.'] + "png";
    ParamsPathOfStem(chosen, "png");
  }

  /** A name with an image extension is kept, and the parameter file drops the extension. */
  lemma StrippedParams(chosen: string, extension: string)
    requires HasImageExtension(chosen) && EndsWith(chosen, extension)
    requires |extension| > 0 && extension[0] == '.' && '.' !in extension[1..]
    ensures ParamsPath(ImagePath(chosen)) == chosen[..|chosen| - |extension|] + "_params.txt"
  {
    var stem := chosen[..|chosen| - |extension|];
    assert chosen == stem + ['.'] + extension[1..];
    ParamsPathOfStem(stem, extension[1..]);
  }

  /** A name ends in at most one of the three image extensions. */
  lemma ExtensionsExclusive(s: string)
    ensures EndsWith(s, ".png") ==> !EndsWith(s, ".jpg") && !EndsWith(s, ".jpeg")
    ensures EndsWith(s, ".jpg") ==> !EndsWith(s, ".jpeg")
  {
    if EndsWith(s, ".png") {
      assert s[|s| - 3] == 'p' && s[|s| - 2] == 'n';
    }
    if EndsWith(s, ".jpg") {
      assert s[|s| - 2] == 'p';
    }
  }

  /** Every saved image name ends in `g`, so it never ends like a parameter-file name. */
  lemma ImageNameEndsInG(image: string)
    requires HasImageExtension(image)
    ensures image[|image| - 1] == 'g'
  {
    if EndsWith(image, ".png") {
      assert image[|image| - 1] == ".png"[3];
    } else if EndsWith(image, ".jpg") {
      assert image[|image| - 1] == ".jpg"[3];
    } else {
      assert image[|image| - 1] == ".jpeg"[4];
    }
  }
}
