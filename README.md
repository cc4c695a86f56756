# Stereo depth-map analysis tool: a verified model of its core

The repository holds two versions of one PySide6/OpenCV desktop tool that turns a rectified
stereo image pair into a depth map. `Depth-map-analysis-tool_Eng.py` is the newer English
version and `Depth-map-analysis-tool.py` is the older Chinese version. Below the Qt user interface,
each version has a small deterministic core:

- **Calibration reader** (`parse_calib_file`).
  - The English version recognises KITTI `P2:`/`P3:` projection matrices, Middlebury
    `cam0=`/`cam1=` matrices, `baseline=` in millimetres, and generic `fx`/`baseline` keys with a
    metres-or-millimetres rule. It then applies a guarded update of the tool's focal length and
    baseline.
  - The Chinese version splits every line at `=` or `:` into the `calib_data` dictionary and
    takes the focal length and baseline from keys that mention `focal` or `baseline`.
- **Disparity-to-depth conversion** (`compute_depth_from_disparity`).
  - Both versions work on a copy of the disparity grid whose non-positive entries are raised to
    0.1. Metric depth is `f * b / d` clamped to [0, 100] metres.
  - The English relative depth masks out disparities up to 0.5, inverts the rest, normalises by
    one of four methods, quantises to 8 bits and median-filters.
  - The Chinese relative depth inverts every pixel, clips at the 95th percentile, divides by it
    and min-max rescales to [0, 255].
- **Small rules**: the depth-type combo-box mapping, the image-shape check, the odd block size,
  the 1/16 scale of the SGBM output (which BM does not get), the SGBM mode lookup, and the names
  `save_result` writes to.

## Layout

The model has one Dafny module per file:

- `Wrappers`: `Option` and `Result`.
- `Text`: the Python `str` operations used, with Python's meaning.
- `Stats`: `np.min`, `np.max`, `np.clip`, masks, and the min-max rescale.
- `Library`: numpy/OpenCV routines kept abstract. They are passed in as function values, and
  `ValidOps` states the only facts assumed about them.
- `DisparityDepth`: the floor and the metric branch, which both versions share.
- `StereoRules`: the small rules.
- `CalibEng`, `DepthEng`, `ToolEng`: the English version.
- `CalibZh`, `DepthZh`, `ToolZh`: the Chinese version.

In each `Tool*` module, `StereoVisionTool` is a class with the fields the source updates. Its
methods run the source's loops and masked array assignments. Each method is proved equal to the
specification function in the `Calib*`/`Depth*` modules, and the lemmas there state what the
source promises.

Inputs that the tool reads from the outside world are parameters:

- Python's `float()` is a `RealParser` (`string -> Option<real>`, where `None` means `ValueError`).
- The calibration file's text or lines.
- The OpenCV matchers (`Matcher`, where `None` means the matcher raised).
- The combo-box index.
- The path chosen in the save dialog (empty when cancelled).

## Model

| member | source | states |
|---|---|---|
| Text.Strip | Depth-map-analysis-tool_Eng.py:584 | `strip()` leaves no whitespace at either end, and it is the identity on text that has none there |
| Text.StripSpec | Depth-map-analysis-tool_Eng.py:584 | `strip()` removes exactly the whitespace around the text: the result is the characters of `s` after its leading whitespace, and all that follows them is whitespace |
| Text.SplitOnce | Depth-map-analysis-tool.py:896-899 | `split(c, 1)`: the two halves and `c` concatenate back to the text, and the first half holds no `c` |
| Text.Split | Depth-map-analysis-tool.py:890 | `split(c)` gives at least one piece, no piece contains `c`, and joining the pieces with `c` gives the text back |
| Text.SplitInTwo | Depth-map-analysis-tool_Eng.py:615-616 | `split('=')` has exactly two parts iff the line has exactly one `=`, and the second part is then the text after it |
| Text.WordsAreWords | Depth-map-analysis-tool_Eng.py:589 | every token of `split()` is a non-empty run of non-whitespace characters |
| Text.RemoveChar | Depth-map-analysis-tool_Eng.py:600 | `replace(c, '')` leaves no `c`, and leaves text without `c` unchanged |
| Text.ReplaceChar | Depth-map-analysis-tool_Eng.py:601 | `replace(';', ' ')` keeps the length and leaves no `;` |
| Text.BeforeLast | Depth-map-analysis-tool_Eng.py:1177 | `rsplit('.', 1)[0]` is the prefix before the last `.`, with no `.` after that position; it is the whole text when the text has no `.` |
| Text.BeforeLastOfSuffix | Depth-map-analysis-tool_Eng.py:1177 | for `p + '.' + t` where `t` has no `.`, `rsplit` gives back `p` |
| Stats.Clip | Depth-map-analysis-tool_Eng.py:857 | `np.clip` lands in [lo, hi] and is the identity inside it |
| Stats.CountTrueZero | Depth-map-analysis-tool_Eng.py:831 | `np.any(mask)` is false exactly when no entry of the mask is set |
| Stats.Select | Depth-map-analysis-tool_Eng.py:847 | `values[mask]` has one entry per set mask bit |
| Stats.SelectHas | Depth-map-analysis-tool_Eng.py:847 | every pixel under the mask appears in `values[mask]` |
| Stats.SelectAbove | Depth-map-analysis-tool_Eng.py:847 | a lower bound on the masked pixels bounds every entry of `values[mask]` |
| Stats.Rescale | Depth-map-analysis-tool_Eng.py:864 | `(x - lo) / (hi - lo)` maps [lo, hi] into [0, 1] with lo to 0 and hi to 1, is negative below lo, and is 0 for an empty range |
| Stats.RescaleMonotone | Depth-map-analysis-tool_Eng.py:864 | the rescale keeps the order of its inputs |
| DisparityDepth.FloorDisparity | Depth-map-analysis-tool_Eng.py:806 | every filtered disparity is positive, a positive one is kept, and one at or below 0.1 came from one at or below 0.1 |
| DisparityDepth.MetricDepth | Depth-map-analysis-tool_Eng.py:810-815 | every metric depth lies in [0, 100], and it equals `f * b / d'` wherever that quotient is already in range |
| DisparityDepth.MetricDepthSign | Depth-map-analysis-tool_Eng.py:810-815 | a non-positive `f * b` (e.g. a negative baseline) gives depth 0 everywhere; with `f * b >= 10`, a non-positive disparity gives the cap 100 |
| DisparityDepth.MetricDepthAntitone | Depth-map-analysis-tool_Eng.py:810 | a larger filtered disparity never gives a larger metric depth |
| DisparityDepth.CopyOf | Depth-map-analysis-tool_Eng.py:805 | `disparity.copy()` is a fresh array with the same contents, so the caller's grid is never written |
| DisparityDepth.FloorNonPositive | Depth-map-analysis-tool_Eng.py:806 | the masked assignment `a[a <= 0] = 0.1` leaves `Floored` of the old contents |
| DisparityDepth.DivideInto | Depth-map-analysis-tool_Eng.py:810 | a fresh array holding `f * b / d'` for every entry |
| DisparityDepth.CapAbove | Depth-map-analysis-tool_Eng.py:814 | `a[a > 100] = 100`: entries above the cap become the cap and the others are unchanged |
| DisparityDepth.RaiseNegatives | Depth-map-analysis-tool_Eng.py:815 | `a[a < 0] = 0`: negative entries become 0 and the others are unchanged |
| DisparityDepth.MetricDepthMap | Depth-map-analysis-tool_Eng.py:808-815 | the three array passes together compute exactly `MetricDepth` of the original disparities |
| StereoRules.ValidateImagesSize | Depth-map-analysis-tool_Eng.py:779-785 | the pair passes iff the two shapes are equal |
| StereoRules.OddBlockSize | Depth-map-analysis-tool_Eng.py:931-932 | the block size used is odd: an even request gets +1, an odd one is kept |
| StereoRules.OddBlockSizeIdempotent | Depth-map-analysis-tool_Eng.py:931-933 | feeding the written-back block size in again changes nothing |
| StereoRules.SgbmDisparity | Depth-map-analysis-tool_Eng.py:1025 | the SGBM output divided by 16: each disparity times 16 is the raw fixed-point value |
| StereoRules.BmDisparity | Depth-map-analysis-tool_Eng.py:952-956 | the BM output is used as disparities without the division by 16 |
| StereoRules.BmDisparityIsSixteenfold | Depth-map-analysis-tool_Eng.py:952-956 | for the same raw output, BM disparities are 16 times the SGBM ones |
| StereoRules.SgbmModeOf | Depth-map-analysis-tool_Eng.py:991 | `sgbm_mode_map.get(text, MODE_SGBM)`: 3WAY and HH exactly for their own texts, standard SGBM for every other text |
| StereoRules.ImagePath | Depth-map-analysis-tool_Eng.py:1168-1169 | the saved image name always has an image extension, equals the chosen path if that already has one, and otherwise is the path plus `.png` |
| StereoRules.ParamsPath | Depth-map-analysis-tool_Eng.py:1177 | the parameter file name ends in `_params.txt` |
| StereoRules.SavePaths | Depth-map-analysis-tool_Eng.py:1166-1177 | a cancelled dialog (empty path) writes nothing; any other path gives both names |
| StereoRules.ParamsPathOfStem | Depth-map-analysis-tool_Eng.py:1177 | the parameter file of `stem.ext` is `stem_params.txt` |
| StereoRules.SavePathsStem | Depth-map-analysis-tool_Eng.py:1166-1177 | a path without an image extension keeps all its text (dots included) before `_params.txt`; a `.png`/`.jpg`/`.jpeg` path loses exactly that extension; the two names never coincide |
| StereoRules.AppendedParams | Depth-map-analysis-tool_Eng.py:1168-1177 | the `.png` appended to a bare name is dropped again from the parameter file name |
| StereoRules.StrippedParams | Depth-map-analysis-tool_Eng.py:1168-1177 | a name with an image extension is kept, and the parameter file name drops that extension |
| CalibEng.Kind | Depth-map-analysis-tool_Eng.py:586-622 | the `if`/`elif` chain in the tool's order; a projection line has its 3-character label, and the `cam`, `baseline=` and generic-baseline branches hold an `=` |
| CalibEng.ParseAll | Depth-map-analysis-tool_Eng.py:589 | `astype('float32')` of the tokens gives one number per token when it succeeds |
| CalibEng.ParseAllSpec | Depth-map-analysis-tool_Eng.py:589 | the conversion succeeds iff every token is a number, and then yields those numbers in order; otherwise it reports the first bad token |
| CalibEng.ProjectionMatrix | Depth-map-analysis-tool_Eng.py:589 | a successful `reshape(3, 4)` holds 12 numbers |
| CalibEng.ProjectionMatrixSpec | Depth-map-analysis-tool_Eng.py:589 | the reshape succeeds iff there are exactly 12 tokens, all numbers, and the matrix is those numbers in row-major order |
| CalibEng.BaselineFromKey | Depth-map-analysis-tool_Eng.py:629-632 | a value below 10 is kept as metres; any other value is millimetres and divided by 1000 |
| CalibEng.Apply | Depth-map-analysis-tool_Eng.py:583-634 | a branch changes only the variable it assigns |
| CalibEng.LeftProjectionEffect | Depth-map-analysis-tool_Eng.py:587-590 | a `P2:` line can only set the focal length |
| CalibEng.RightProjectionEffect | Depth-map-analysis-tool_Eng.py:592-595 | a `P3:` line can only set the baseline |
| CalibEng.CameraEffect | Depth-map-analysis-tool_Eng.py:598-603 | a `cam0=`/`cam1=` line never sets the baseline |
| CalibEng.MillimetresEffect | Depth-map-analysis-tool_Eng.py:606-610 | a `baseline=` line can only set the baseline |
| CalibEng.KeyValueSpec | Depth-map-analysis-tool_Eng.py:615-616 | `parts = line.split('=')` with `len(parts) == 2` holds iff the line has one `=`, and `parts[1].strip()` is then the stripped text after it |
| CalibEng.FocalKeyEffect | Depth-map-analysis-tool_Eng.py:613-620 | an `fx` line never sets the baseline |
| CalibEng.BaselineKeyEffect | Depth-map-analysis-tool_Eng.py:622-634 | a generic `baseline` line never sets the focal length |
| CalibEng.LineEffect | Depth-map-analysis-tool_Eng.py:584-634 | a line sets only what its kind names; only projection, camera and `baseline=` lines can raise (the `fx` and generic-baseline branches swallow `ValueError`); unrecognised lines do nothing |
| CalibEng.LineEffectByKind | Depth-map-analysis-tool_Eng.py:586-634 | each kind of stripped line is handed to its own branch |
| CalibEng.ScanPrefixStep | Depth-map-analysis-tool_Eng.py:583-634 | reading one more line either raises that line's error or applies its effect to the values read so far |
| CalibEng.FailureIsFinal | Depth-map-analysis-tool_Eng.py:583-634 | once a line raises, the rest of the file is never read: the whole read ends with that error |
| CalibEng.PrefixSucceeds | Depth-map-analysis-tool_Eng.py:583-634 | a read that succeeds succeeded on every prefix of the file |
| CalibEng.LastWriterWins | Depth-map-analysis-tool_Eng.py:583-634 | last value wins: if no later line is of a kind that sets the focal length (or the baseline), its final value is the one held after line `i` |
| CalibEng.UnrecognisedLineIgnored | Depth-map-analysis-tool_Eng.py:583-634 | inserting an unrecognised line anywhere in the file changes nothing |
| CalibEng.LeftProjectionLine | Depth-map-analysis-tool_Eng.py:587-588 | a `P2:` line is handed the whitespace tokens after its label |
| CalibEng.LeftEffectValue | Depth-map-analysis-tool_Eng.py:589-590 | a `P2:` line succeeds iff it holds exactly 12 numbers, and then sets the focal length to the first of them (`m[0, 0]`) |
| CalibEng.RightProjectionLine | Depth-map-analysis-tool_Eng.py:592-593 | a `P3:` line is handed the whitespace tokens after its label |
| CalibEng.RightEffectValue | Depth-map-analysis-tool_Eng.py:594-595 | a `P3:` line succeeds iff it holds exactly 12 numbers, and with `m[0, 0] != 0` sets the baseline to `-m[0, 3] / m[0, 0]` |
| CalibEng.CameraLine | Depth-map-analysis-tool_Eng.py:598-603 | a camera-matrix line sets the focal length to its first number, raises if that is not a number, and is skipped if the matrix is empty |
| CalibEng.BaselineMillimetresLine | Depth-map-analysis-tool_Eng.py:606-610 | a `baseline=` line is always millimetres (divided by 1000), and a bad number raises |
| CalibEng.MillimetresValue | Depth-map-analysis-tool_Eng.py:608-610 | the `baseline=` branch by itself: bad number raises, else value / 1000 |
| CalibEng.FocalKeyLine | Depth-map-analysis-tool_Eng.py:613-620 | an `fx` line never raises; with exactly one `=` and a number after it, it sets the focal length to that number, and otherwise it is skipped |
| CalibEng.FocalKeyValue | Depth-map-analysis-tool_Eng.py:615-620 | the `fx` branch by itself, in terms of the text after the first `=` |
| CalibEng.BaselineKeyLine | Depth-map-analysis-tool_Eng.py:622-634 | a generic baseline line never raises; with one `=` and a number x it sets x if x < 10, else x / 1000; otherwise it is skipped |
| CalibEng.BaselineKeyValue | Depth-map-analysis-tool_Eng.py:624-634 | the generic-baseline branch by itself, in terms of the text after the first `=` |
| CalibEng.KittiPair | Depth-map-analysis-tool_Eng.py:583-595 | a KITTI file of a `P2:` and a `P3:` line reads focal = left `m[0, 0]` and baseline = `-tx / f` of the right matrix |
| CalibEng.FoldTwo | Depth-map-analysis-tool_Eng.py:583 | two lines that do not raise apply their effects in file order |
| DepthEng.InverseWhereValid | Depth-map-analysis-tool_Eng.py:845-846 | `relative_depth` is `1/d` (positive) at valid pixels and 0 at invalid ones |
| DepthEng.ClipRescale | Depth-map-analysis-tool_Eng.py:857-858 | clip-then-rescale lies in [0, 1], is 0 at or below the low percentile, and is 1 at or above the high one |
| DepthEng.ClipRescaleMonotone | Depth-map-analysis-tool_Eng.py:857-858 | clip-then-rescale keeps order |
| DepthEng.ToByte | Depth-map-analysis-tool_Eng.py:889 | `astype(np.uint8)` cuts the fraction: b <= x < b + 1 |
| DepthEng.Quantize | Depth-map-analysis-tool_Eng.py:888-889 | `* 255`, clip and cast: non-positive goes to 0, at least 1 goes to 255, and in between is the floor of 255x |
| DepthEng.QuantizeMonotone | Depth-map-analysis-tool_Eng.py:888-889 | quantisation keeps order |
| DepthEng.AsReals | Depth-map-analysis-tool_Eng.py:899 | `astype(np.float32)` of the 8-bit grid gives whole numbers in [0, 255] |
| DepthEng.PercentileNormalized | Depth-map-analysis-tool_Eng.py:853-858 | the `percentile` method gives values in [0, 1] |
| DepthEng.MinMaxNormalized | Depth-map-analysis-tool_Eng.py:860-864 | the `minmax` method gives values in [0, 1] for pixels within the valid range |
| DepthEng.LogNormalized | Depth-map-analysis-tool_Eng.py:866-874 | the `log` method gives values in [0, 1] |
| DepthEng.AdaptiveNormalized | Depth-map-analysis-tool_Eng.py:876-885 | the `adaptive` (CLAHE) method gives values in [0, 1] |
| DepthEng.Normalized | Depth-map-analysis-tool_Eng.py:852-885 | normalisation succeeds iff the method is one of the four names; any other name raises the unbound-variable error |
| DepthEng.QuantizedDepth | Depth-map-analysis-tool_Eng.py:852-889 | the 8-bit grid exists iff the method is known |
| DepthEng.ValidMaskOfFloored | Depth-map-analysis-tool_Eng.py:828-829 | a pixel is valid iff its original disparity exceeds 0.5 (the 0.1 floor never passes) |
| DepthEng.NoValidPixels | Depth-map-analysis-tool_Eng.py:828-833 | with no disparity above 0.5 the result is an all-zero grid of the same size, for any method name |
| DepthEng.UnknownMethodRaises | Depth-map-analysis-tool_Eng.py:799-888 | the conversion raises iff it is relative, some pixel is valid, and the method name is unknown |
| DepthEng.RelativeDepthIsByteGrid | Depth-map-analysis-tool_Eng.py:887-899 | every relative depth is a whole number in [0, 255], and the grid keeps its size |
| DepthEng.ValidValuesPositive | Depth-map-analysis-tool_Eng.py:846-847 | every value the percentiles are taken over is positive |
| DepthEng.InvalidPixelsAreZero | Depth-map-analysis-tool_Eng.py:845-893 | under `percentile`/`minmax`/`log`, invalid pixels are 0 before the median filter, and stay 0 when the filter is skipped (at most 100 valid pixels) |
| DepthEng.NormalizedZeroAt | Depth-map-analysis-tool_Eng.py:853-874 | an invalid pixel normalises to at most 0 under `percentile`, `minmax` and `log` |
| DepthEng.NearerIsNotDeeper | Depth-map-analysis-tool_Eng.py:845-889 | under `percentile`/`minmax`/`log`, of two valid pixels the one with the larger disparity never gets the larger 8-bit value |
| DepthEng.MinMaxEnds | Depth-map-analysis-tool_Eng.py:860-864 | under `minmax`, the nearest valid pixel becomes 0 and the farthest becomes 255 when the valid values differ |
| DepthEng.GetDepthCalculationType | Depth-map-analysis-tool_Eng.py:787-797 | metric iff index 1 or 2 (unit `meters`), labelled `Absolute depth (manual parameters)` for 1 and `Absolute depth (calibration file)` for 2; index 0 and every other index give relative depth with its label and unit |
| DepthEng.SavedDepthTypeLabel | Depth-map-analysis-tool_Eng.py:1156-1159 | the saved label raises `IndexError` exactly for indices below -3 (negative indices count from the end), and is `Unknown` from 3 on |
| DepthEng.SavedLabelAgrees | Depth-map-analysis-tool_Eng.py:1156-1184 | for indices 0-2 the saved label is `get_depth_calculation_type`'s label, and focal length and baseline are written exactly for the metric ones; from 3 on, the labels differ |
| ToolEng.InvertWhereValid | Depth-map-analysis-tool_Eng.py:845-846 | zeros, then `1/d` written at the valid pixels, equals `InverseWhereValid` |
| ToolEng.ReadLines | Depth-map-analysis-tool_Eng.py:576-634 | the loop reassigning `focal_from_file`/`baseline_from_file` computes `ScanLines`, stopping at the first line that raises |
| ToolEng.StereoVisionTool.constructor | Depth-map-analysis-tool_Eng.py:53-66 | no images, no results, focal length 1000 and baseline 0.54 |
| ToolEng.StereoVisionTool.ParseCalibFile | Depth-map-analysis-tool_Eng.py:572-646 | on a raise both fields are unchanged; otherwise each field takes the value read only if it is positive and keeps its old value otherwise; the outcome is the information box iff either value read is positive |
| ToolEng.StereoVisionTool.ComputeDepthFromDisparity | Depth-map-analysis-tool_Eng.py:799-899 | `None` in, `None` out; otherwise a fresh grid equal to `DepthFromDisparity` with the current focal length and baseline, or its error |
| ToolEng.StereoVisionTool.MatchPair | Depth-map-analysis-tool_Eng.py:904-956 | a missing image or a shape mismatch stops first; otherwise the odd block size is used, a matcher failure is reported, and a success gives the depth of the converted output, which never raises with `percentile` |
| ToolEng.StereoVisionTool.GenerateBmDepth | Depth-map-analysis-tool_Eng.py:901-967 | on success `bm_depth` is the depth of the raw BM output (not divided by 16); on any other outcome it keeps its old value |
| ToolEng.StereoVisionTool.GenerateSgbmDepth | Depth-map-analysis-tool_Eng.py:969-1040 | on success `sgbm_depth` is the depth of the SGBM output divided by 16; on any other outcome it keeps its old value |
| ToolEng.StereoVisionTool.SaveResult | Depth-map-analysis-tool_Eng.py:1139-1184 | nothing without a result; the label lookup raises before the dialog; a cancelled dialog writes nothing; otherwise it writes the two `SavePaths` names, the label, and the focal length and baseline iff the index is positive |
| CalibZh.SplitLine | Depth-map-analysis-tool.py:891-904 | a line gives an entry iff its stripped text holds `=` or `:`; the entry is the two stripped halves around the first `=`, or around the first `:` when there is no `=`; so the key never holds `=`, nor `:` when the split was at `:` |
| CalibZh.SkippedLine | Depth-map-analysis-tool.py:892-901 | a line without a separator (a blank line included) adds nothing, wherever it stands |
| CalibZh.EntriesStep | Depth-map-analysis-tool.py:890-905 | reading one more line appends that line's entry, if any |
| CalibZh.GatherAppend | Depth-map-analysis-tool.py:890 | reading two runs of lines is reading the first, then the second |
| CalibZh.DictKeys | Depth-map-analysis-tool.py:888-905 | `calib_data`, reset to empty, holds exactly the keys of the entries |
| CalibZh.DictLastWins | Depth-map-analysis-tool.py:905 | a key maps to the value of its last entry: a later duplicate overwrites an earlier one |
| CalibZh.EntryEffect | Depth-map-analysis-tool.py:908-921 | an entry changes the focal length only if it is a focal key with a number, and the baseline only if it is a baseline key with a number |
| CalibZh.LastFocalWins | Depth-map-analysis-tool.py:908-914 | the focal length is the number of the last entry that sets it, with no unit conversion and no sign check |
| CalibZh.FocalKept | Depth-map-analysis-tool.py:908-914 | with no entry that sets it, the focal length keeps its earlier value |
| CalibZh.LastBaselineWins | Depth-map-analysis-tool.py:915-921 | the baseline is the number of the last entry that sets it, with no unit conversion and no sign check |
| CalibZh.BaselineKept | Depth-map-analysis-tool.py:915-921 | with no entry that sets it, the baseline keeps its earlier value |
| CalibZh.ReadStep | Depth-map-analysis-tool.py:890-921 | one more line either changes nothing or stores its entry and applies its effect |
| CalibZh.FocalKeyFirst | Depth-map-analysis-tool.py:908-915 | a key naming both `focal` and `baseline` only ever sets the focal length |
| DepthZh.Reciprocal | Depth-map-analysis-tool.py:1089-1092 | `1 / d'` is positive and finite everywhere, so `valid_values` is the whole grid |
| DepthZh.ClipScaled | Depth-map-analysis-tool.py:1095-1096 | one pixel of clip-and-divide lies in [0, 1]: 1 at or beyond p95, below 1 under it, and `x / p95` inside [0, p95] |
| DepthZh.ClipToPercentile | Depth-map-analysis-tool.py:1095-1096 | the whole grid clipped to [0, p95] and divided by p95: values in [0, 1], pixels at or beyond p95 all 1 |
| DepthZh.ClipScaledMonotone | Depth-map-analysis-tool.py:1095-1096 | clip-and-divide keeps order |
| DepthZh.NormalizeMinMax | Depth-map-analysis-tool.py:1099 | `cv2.normalize(..., 0, 255, NORM_MINMAX)`: values in [0, 255], the minimum goes to 0, and the maximum goes to 255 when the grid is not constant |
| DepthZh.PercentilePositive | Depth-map-analysis-tool.py:1092-1094 | the 95th percentile of positive values is positive, so the division is defined |
| DepthZh.FlooredPositive | Depth-map-analysis-tool.py:1074-1075 | every entry of the filtered copy is positive |
| DepthZh.RelativeDepthRange | Depth-map-analysis-tool.py:1089-1099 | every relative depth lies in [0, 255], and a non-empty grid reaches 0 |
| DepthZh.FarPixelsSaturate | Depth-map-analysis-tool.py:1093-1099 | once any pixel lies below p95, every pixel at or beyond it comes out as 255 |
| DepthZh.NormalizeTop | Depth-map-analysis-tool.py:1099 | in a non-constant grid bounded by 1, every 1 is rescaled to 255 |
| DepthZh.NearerIsNotDeeper | Depth-map-analysis-tool.py:1089-1099 | a larger filtered disparity never gives a larger relative depth |
| DepthZh.GetDepthCalculationType | Depth-map-analysis-tool.py:1056-1066 | metric iff index 1 or 2 (unit `米`), labelled `绝对深度（手动参数）` for 1 and `绝对深度（标定文件）` for 2; index 0 and every other index give relative depth (`归一化值`) |
| DepthZh.SavedDepthTypeLabel | Depth-map-analysis-tool.py:1371-1373 | the saved label raises exactly for indices below -3, and is `未知` from 3 on |
| DepthZh.SavedLabelAgrees | Depth-map-analysis-tool.py:1371-1398 | for indices 0-2 the saved label is `get_depth_calculation_type`'s label, and calibration is written exactly for the metric ones |
| ToolZh.ReciprocalOf | Depth-map-analysis-tool.py:1089 | the array loop computes `Reciprocal` into a fresh array |
| ToolZh.ClipToPercentileOf | Depth-map-analysis-tool.py:1095-1096 | the array loop computes `ClipToPercentile` into a fresh array |
| ToolZh.NormalizeMinMaxOf | Depth-map-analysis-tool.py:1099 | `cv2.normalize(..., 0, 255, NORM_MINMAX)` gives a fresh array equal to `NormalizeMinMax` of its input |
| ToolZh.RelativeDepthOf | Depth-map-analysis-tool.py:1089-1099 | reciprocal, clip-and-divide (skipped for an empty grid) and normalize give `RelativeDepth` |
| ToolZh.StereoVisionTool.constructor | Depth-map-analysis-tool.py:56-70 | no images, `calib_data` unset, no results, focal length 1000 and baseline 0.54 |
| ToolZh.StereoVisionTool.ParseCalibFile | Depth-map-analysis-tool.py:888-921 | `calib_data` becomes the dictionary of the file's entries, and the lengths become those `ReadLengths` computes from the old ones |
| ToolZh.StereoVisionTool.ReadLine | Depth-map-analysis-tool.py:890-921 | one pass of the loop takes `calib_data` and the lengths from those of the first `i` lines to those of the first `i + 1` |
| ToolZh.StereoVisionTool.ApplyEntry | Depth-map-analysis-tool.py:907-921 | the focal/baseline branch of one entry has `EntryEffect` on the two fields |
| ToolZh.StereoVisionTool.ComputeDepthFromDisparity | Depth-map-analysis-tool.py:1068-1102 | `None` in, `None` out; otherwise a fresh grid equal to `DepthFromDisparity` with the current focal length and baseline |
| ToolZh.StereoVisionTool.MatchPair | Depth-map-analysis-tool.py:1108-1160 | a missing image or a shape mismatch stops first; otherwise the odd block size is used, a matcher failure is reported, and a success gives the depth of the converted output |
| ToolZh.StereoVisionTool.GenerateBmDepth | Depth-map-analysis-tool.py:1104-1175 | on success `bm_depth` is the depth of the raw BM output (not divided by 16); on any other outcome it keeps its old value |
| ToolZh.StereoVisionTool.GenerateSgbmDepth | Depth-map-analysis-tool.py:1177-1253 | on success `sgbm_depth` is the depth of the SGBM output divided by 16; on any other outcome it keeps its old value |
| ToolZh.StereoVisionTool.SaveResult | Depth-map-analysis-tool.py:1355-1398 | nothing without a result; the label lookup raises before the dialog; a cancelled dialog writes nothing; otherwise it writes the two `SavePaths` names, the label, and the focal length and baseline iff the index is positive |

## Left out

- The Qt interface: styling, tooltips, signal wiring, previews, image display and every message box. The outcome datatypes only say which box is shown, not its text; `check_images_loaded` is one outcome (`ImagesMissing`) whichever image is missing.
- The spin boxes. `setValue` writes back the block size and the focal length and baseline, and its change signals may round or clamp those values to the spin box's range; the model keeps the values as computed.
- Loading images (`load_left_image`, `load_right_image`, `cv2.imread`). `leftImage` and `rightImage` are fields that no modelled method writes.
- File I/O:
  - `open`/`readlines`/`read` of the calibration file: the English reader takes the lines and the Chinese one takes the text. When the Chinese version cannot read the file, its handler leaves every field unchanged; this is not modelled.
  - `cv2.imwrite`, `applyColorMap`, and writing the parameter file. `SaveResult` gives the two file names, the label, and whether calibration is written, not the file contents (algorithm name, time stamp, timings, matcher parameters).
- `compare_algorithms`, `generate_comparison_stats`, `save_all_results` and all timing (`time.time()`, `datetime.now()`): reporting and UI sequencing, with no model of their own.
- The OpenCV matchers: every parameter except the block size is folded into the `Matcher` value, and an exception becomes `None`. `np.percentile`, `np.log`, `cv2.medianBlur` and CLAHE are abstract and constrained only by `ValidOps`. `cv2.normalize` is concrete.
- Floating point:
  - Grids are real-valued, with no float32 rounding.
  - The `1e-10` added to each rescale denominator is dropped. An empty range gives 0, which the 8-bit cast also gives.
  - `float()` of `inf` or `nan` is outside `RealParser`. So are NaNs and infinities in the grid, including the infinities the Chinese version filters with `np.isinf`; after the 0.1 floor there are none.
- DepthEng.AdaptiveNormalized: only its [0, 1] range is stated. What CLAHE does to individual pixels is not modelled, so the invalid-pixel and order lemmas cover only `percentile`, `minmax` and `log`.
- Text.Lower: only ASCII letters are lowered, not the full Unicode `str.lower()`. The keys searched for (`fx`, `focal`, `baseline`) are ASCII.
- CalibEng.ProjectionBaseline: a `P3:` matrix with `m[0, 0] == 0` yields 0.0. numpy gives an infinity or NaN instead, and with a negative `m[0, 3]` the tool would store an infinite baseline; the model does not.
- The median filter's input and output are 8-bit grids, and `DepthEng.InvalidPixelsAreZero` says nothing about pixels after the filter runs (more than 100 valid pixels).
- The English `calib_file`/`calib_data` fields and the Chinese `calib_file` field only record the path or stay unused, so they are not part of the class.
