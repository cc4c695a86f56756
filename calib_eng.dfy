/** The calibration-text reader of the English version of the tool (`parse_calib_file`), as a
    function of the file's lines. Each stripped line is classified by the first test it passes,
    in the order the tool tries them, and may overwrite the focal length or the baseline read so
    far; a malformed number on a projection, camera-matrix or `baseline=` line raises and ends
    the whole read. The tool's own loop over the lines is `ToolEng.StereoVisionTool.ParseCalibFile`. */
module CalibEng {
  import opened Wrappers
  import opened Text

  /** Why reading the file raised: a token that is not a number, or a projection matrix that does
      not hold exactly 12 numbers (`reshape(3, 4)` fails). */
  datatype CalibError = InvalidNumber(text: string) | NotReshapable(count: nat)

  /** The values read so far; both start at 0.0, which means "not found". */
  datatype CalibValues = CalibValues(focal: real, baseline: real)

  /** What one line does to the values read so far: every branch of the tool's chain assigns
      at most one of `focal_from_file` and `baseline_from_file`. */
  datatype Effect = SetFocal(focal: real) | SetBaseline(baseline: real) | Keep

  const NothingRead := CalibValues(0.0, 0.0)

  /** The branch a stripped line takes. */
  datatype LineKind =
    | LeftProjection      // `P2:` and a 3x4 matrix
    | RightProjection     // `P3:` and a 3x4 matrix
    | CameraMatrix        // `cam0=` or `cam1=` and a matrix literal
    | BaselineMillimetres // `baseline=` in millimetres
    | FocalKey            // any other line containing `fx` in any case
    | BaselineKey         // any other line containing `baseline` in any case and an `=`
    | Unrecognised

  /** The tests of the `if`/`elif` chain, in the tool's order. A projection line holds at least
      its three-character label, and a camera-matrix, `baseline=` or other `baseline` line an `=`. */
  function Kind(line: string): (k: LineKind)
    ensures k == LeftProjection || k == RightProjection ==> |line| >= 3
    ensures k == CameraMatrix || k == BaselineMillimetres || k == BaselineKey ==> '=' in line
  {
    if StartsWith(line, "P2:") then LeftProjection
    else if StartsWith(line, "P3:") then RightProjection
    else if StartsWith(line, "cam0=") || StartsWith(line, "cam1=") then
      assert line[4] == '=';
      CameraMatrix
    else if StartsWith(line, "baseline=") then
      assert line[8] == '=';
      BaselineMillimetres
    else if Contains(Lower(line), "fx") then FocalKey
    else if Contains(Lower(line), "baseline") && '=' in line then BaselineKey
    else Unrecognised
  }

  /** The kinds that may write the focal length, and those that may write the baseline. */
  predicate SetsFocal(k: LineKind) {
    k == LeftProjection || k == CameraMatrix || k == FocalKey
  }

  predicate SetsBaseline(k: LineKind) {
    k == RightProjection || k == BaselineMillimetres || k == BaselineKey
  }

  /** The kinds whose line raises on a malformed number. */
  predicate MayRaise(k: LineKind) {
    k == LeftProjection || k == RightProjection || k == CameraMatrix || k == BaselineMillimetres
  }

  /** `np.array(tokens).astype('float32')`: every token converted, or the first one that is not a
      number reported. */
  function ParseAll(tokens: seq<string>, parse: RealParser): (r: Result<seq<real>, CalibError>)
    ensures r.Success? ==> |r.value| == |tokens|
    decreases |tokens|
  {
    if tokens == [] then Success([])
    else
      match parse(tokens[0])
      case None => Failure(InvalidNumber(tokens[0]))
      case Some(x) =>
        var rest :- ParseAll(tokens[1..], parse);
        Success([x] + rest)
  }

  /** The conversion succeeds exactly when every token is a number, and then yields those
      numbers in order; otherwise it reports the first token that is not one. */
  lemma {:induction false} ParseAllSpec(tokens: seq<string>, parse: RealParser)
    ensures var r := ParseAll(tokens, parse);
      && (r.Success? <==> forall i :: 0 <= i < |tokens| ==> parse(tokens[i]).Some?)
      && (r.Success? ==> forall i :: 0 <= i < |tokens| ==> parse(tokens[i]) == Some(r.value[i]))
      && (r.Failure? ==> exists i :: (0 <= i < |tokens| && parse(tokens[i]).None? &&
            r.error == InvalidNumber(tokens[i]) &&
            forall j :: 0 <= j < i ==> parse(tokens[j]).Some?))
    decreases |tokens|
  {
    if tokens != [] && parse(tokens[0]).Some? {
      var rest := tokens[1..];
      ParseAllSpec(rest, parse);
      assert forall i :: 1 <= i < |tokens| ==> tokens[i] == rest[i - 1];
      if ParseAll(rest, parse).Failure? {
        var i :| 0 <= i < |rest| && parse(rest[i]).None? && ParseAll(rest, parse).error == InvalidNumber(rest[i]) &&
          forall j :: 0 <= j < i ==> parse(rest[j]).Some?;
        assert parse(tokens[i + 1]).None?;
      }
    }
  }

  /** The tokens of a projection line: the text after its label, split on whitespace. */
  function ProjectionTokens(line: string): seq<string>
    requires |line| >= 3
  {
    Words(Strip(line[3..]))
  }

  /** The 3x4 matrix of a projection line, row-major: the tokens are converted first, then
      reshaped. */
  function ProjectionMatrix(tokens: seq<string>, parse: RealParser): (r: Result<seq<real>, CalibError>)
    ensures r.Success? ==> |r.value| == 12
  {
    var m :- ParseAll(tokens, parse);
    if |m| != 12 then Failure(NotReshapable(|m|)) else Success(m)
  }

  /** Exactly 12 tokens, each of them a number. */
  predicate HoldsMatrix(tokens: seq<string>, parse: RealParser) {
    |tokens| == 12 && forall i :: 0 <= i < 12 ==> parse(tokens[i]).Some?
  }

  /** The reshape succeeds for exactly 12 numbers, which are the tokens converted in order. */
  lemma ProjectionMatrixSpec(tokens: seq<string>, parse: RealParser)
    ensures var r := ProjectionMatrix(tokens, parse);
      && (r.Success? <==> HoldsMatrix(tokens, parse))
      && (r.Success? ==> forall i :: 0 <= i < 12 ==> parse(tokens[i]) == Some(r.value[i]))
  {
    ParseAllSpec(tokens, parse);
  }

  /** `-m[0, 3] / m[0, 0]` of a row-major 3x4 matrix. A zero `m[0, 0]` (where numpy yields an
      infinity or NaN) gives 0.0, which is never accepted as a baseline. */
  function ProjectionBaseline(m: seq<real>): (b: real)
    requires |m| == 12
  {
    if m[0] == 0.0 then 0.0 else -m[3] / m[0]
  }

  /** The numbers of a `cam0=`/`cam1=` line: the text after the first `=`, without brackets,
      semicolons read as spaces, split on whitespace. */
  function CameraValues(line: string): seq<string>
    requires '=' in line
  {
    var matrix := RemoveChar(RemoveChar(SplitOnce(line, '=').1, '['), ']');
    Words(ReplaceChar(matrix, ';', ' '))
  }

  /** The text after the first `=` of a line, stripped. */
  function ValueText(line: string): string
    requires '=' in line
  {
    Strip(SplitOnce(line, '=').1)
  }

  /** The unit rule for a baseline found under any other `baseline` key: values below 10 are
      taken as metres, the others as millimetres. */
  function BaselineFromKey(x: real): (metres: real)
    ensures x < 10.0 ==> metres == x
    ensures x >= 10.0 ==> metres * 1000.0 == x
  {
    if x < 10.0 then x else x / 1000.0
  }

  /** The values after `e`. */
  function Apply(v: CalibValues, e: Effect): (w: CalibValues)
    ensures !e.SetFocal? ==> w.focal == v.focal
    ensures !e.SetBaseline? ==> w.baseline == v.baseline
  {
    match e
    case SetFocal(x) => v.(focal := x)
    case SetBaseline(x) => v.(baseline := x)
    case Keep => v
  }

  /** The effect of a line that assigns the focal length. */
  predicate WritesFocal(r: Result<Effect, CalibError>) {
    r.Success? && r.value.SetFocal?
  }

  /** The effect of a line that assigns the baseline. */
  predicate WritesBaseline(r: Result<Effect, CalibError>) {
    r.Success? && r.value.SetBaseline?
  }

  /** A `P2:` line, given the tokens after its label: the focal length becomes the matrix entry
      [0, 0]. */
  function LeftProjectionEffect(tokens: seq<string>, parse: RealParser): (r: Result<Effect, CalibError>)
    ensures r.Success? ==> r.value.SetFocal?
  {
    var m :- ProjectionMatrix(tokens, parse);
    Success(SetFocal(m[0]))
  }

  /** A `P3:` line, given the tokens after its label: the baseline becomes `-m[0, 3] / m[0, 0]`. */
  function RightProjectionEffect(tokens: seq<string>, parse: RealParser): (r: Result<Effect, CalibError>)
    ensures r.Success? ==> r.value.SetBaseline?
  {
    var m :- ProjectionMatrix(tokens, parse);
    Success(SetBaseline(ProjectionBaseline(m)))
  }

  /** A `cam0=`/`cam1=` line: the focal length becomes the first number of the matrix, if it has
      any numbers at all. */
  function CameraEffect(line: string, parse: RealParser): (r: Result<Effect, CalibError>)
    requires '=' in line
    ensures r.Success? ==> !r.value.SetBaseline?
  {
    var values := CameraValues(line);
    if values == [] then Success(Keep)
    else
      match parse(values[0])
      case None => Failure(InvalidNumber(values[0]))
      case Some(x) => Success(SetFocal(x))
  }

  /** A `baseline=` line: the value is in millimetres. */
  function MillimetresEffect(line: string, parse: RealParser): (r: Result<Effect, CalibError>)
    requires '=' in line
    ensures r.Success? ==> r.value.SetBaseline?
  {
    var text := ValueText(line);
    match parse(text)
    case None => Failure(InvalidNumber(text))
    case Some(x) => Success(SetBaseline(x / 1000.0))
  }

  /** `parts = line.split('=')` followed by `parts[1].strip()` when there are exactly two parts:
      the stripped value of a `key = value` line with a single `=`. */
  function KeyValue(line: string): (value: Option<string>)
  {
    var parts := Split(line, '=');
    if |parts| == 2 then Some(Strip(parts[1])) else None
  }

  /** A line has a key value exactly when it holds one `=`, and the value is then the stripped
      text after it. */
  lemma KeyValueSpec(line: string)
    ensures KeyValue(line).Some? <==> '=' in line && '=' !in SplitOnce(line, '=').1
    ensures KeyValue(line).Some? ==> KeyValue(line).value == ValueText(line)
  {
    SplitInTwo(line, '=');
  }

  /** Any other line naming `fx`: the focal length is taken from `key = value` when the line has
      exactly one `=` and the value is a number; otherwise the line is skipped. */
  function FocalKeyEffect(line: string, parse: RealParser): (e: Effect)
    ensures !e.SetBaseline?
  {
    match KeyValue(line)
    case None => Keep
    case Some(text) =>
      match parse(text)
      case None => Keep
      case Some(x) => SetFocal(x)
  }

  /** Any other line naming `baseline` with an `=`: as for `fx`, with the unit rule of
      `BaselineFromKey`. */
  function BaselineKeyEffect(line: string, parse: RealParser): (e: Effect)
    ensures !e.SetFocal?
  {
    match KeyValue(line)
    case None => Keep
    case Some(text) =>
      match parse(text)
      case None => Keep
      case Some(x) => SetBaseline(BaselineFromKey(x))
  }

  /** One raw line of the file: the branch its stripped text selects. A line assigns only the
      value its kind names, only projection, camera-matrix and `baseline=` lines can raise (the
      `fx` and other `baseline` branches swallow a bad number), and an unrecognised line does
      nothing. */
  function LineEffect(raw: string, parse: RealParser): (r: Result<Effect, CalibError>)
    ensures WritesFocal(r) ==> SetsFocal(Kind(Strip(raw)))
    ensures WritesBaseline(r) ==> SetsBaseline(Kind(Strip(raw)))
    ensures r.Failure? ==> MayRaise(Kind(Strip(raw)))
    ensures Kind(Strip(raw)) == Unrecognised ==> r == Success(Keep)
  {
    var line := Strip(raw);
    match Kind(line)
    case LeftProjection => LeftProjectionEffect(ProjectionTokens(line), parse)
    case RightProjection => RightProjectionEffect(ProjectionTokens(line), parse)
    case CameraMatrix => CameraEffect(line, parse)
    case BaselineMillimetres => MillimetresEffect(line, parse)
    case FocalKey => Success(FocalKeyEffect(line, parse))
    case BaselineKey => Success(BaselineKeyEffect(line, parse))
    case Unrecognised => Success(Keep)
  }

  /** The branch function each kind of line is handed to. */
  lemma LineEffectByKind(raw: string, parse: RealParser)
    ensures var line := Strip(raw);
      match Kind(line)
      case LeftProjection => LineEffect(raw, parse) == LeftProjectionEffect(ProjectionTokens(line), parse)
      case RightProjection => LineEffect(raw, parse) == RightProjectionEffect(ProjectionTokens(line), parse)
      case CameraMatrix => LineEffect(raw, parse) == CameraEffect(line, parse)
      case BaselineMillimetres => LineEffect(raw, parse) == MillimetresEffect(line, parse)
      case FocalKey => LineEffect(raw, parse) == Success(FocalKeyEffect(line, parse))
      case BaselineKey => LineEffect(raw, parse) == Success(BaselineKeyEffect(line, parse))
      case Unrecognised => LineEffect(raw, parse) == Success(Keep)
  {
  }

  /** The values after reading `lines` in order, each line's effect given by `effect`, starting
      from nothing read and stopping at the first line that raises. */
  function Fold(lines: seq<string>, effect: string -> Result<Effect, CalibError>): Result<CalibValues, CalibError>
    decreases |lines|
  {
    if lines == [] then Success(NothingRead)
    else
      var v :- Fold(lines[..|lines| - 1], effect);
      var e :- effect(lines[|lines| - 1]);
      Success(Apply(v, e))
  }

  /** The values read from the lines of a calibration file, or the error the first failing line
      raised. */
  function ScanLines(lines: seq<string>, parse: RealParser): Result<CalibValues, CalibError>
  {
    Fold(lines, line => LineEffect(line, parse))
  }

  /** Reading one more line: the error so far, or the line's error, or its effect applied. */
  lemma FoldSnoc(lines: seq<string>, line: string, effect: string -> Result<Effect, CalibError>)
    ensures Fold(lines + [line], effect) ==
      match Fold(lines, effect)
      case Failure(e) => Failure(e)
      case Success(v) =>
        match effect(line)
        case Failure(e) => Failure(e)
        case Success(e) => Success(Apply(v, e))
  {
    assert (lines + [line])[..|lines|] == lines;
  }

  /** Reading the first `i + 1` lines is reading the first `i` and then line `i`. */
  lemma ScanPrefixStep(lines: seq<string>, i: nat, v: CalibValues, parse: RealParser)
    requires i < |lines|
    requires ScanLines(lines[..i], parse) == Success(v)
    ensures ScanLines(lines[..i + 1], parse) ==
      match LineEffect(lines[i], parse)
      case Failure(e) => Failure(e)
      case Success(e) => Success(Apply(v, e))
  {
    FoldPrefixStep(lines, i, v, line => LineEffect(line, parse));
  }

  /** `ScanPrefixStep` for any effect of the lines. */
  lemma FoldPrefixStep(lines: seq<string>, i: nat, v: CalibValues, effect: string -> Result<Effect, CalibError>)
    requires i < |lines|
    requires Fold(lines[..i], effect) == Success(v)
    ensures Fold(lines[..i + 1], effect) ==
      match effect(lines[i])
      case Failure(e) => Failure(e)
      case Success(e) => Success(Apply(v, e))
  {
    assert lines[..i + 1] == lines[..i] + [lines[i]];
    FoldSnoc(lines[..i], lines[i], effect);
  }

  /** Once a line raises, the read is over: the error of a prefix is the error of the whole file. */
  lemma {:induction false} FoldFailureIsFinal(lines: seq<string>, j: nat, effect: string -> Result<Effect, CalibError>)
    requires j <= |lines|
    requires Fold(lines[..j], effect).Failure?
    ensures Fold(lines, effect) == Fold(lines[..j], effect)
    decreases |lines| - j
  {
    if j < |lines| {
      assert lines[..j] == lines[..|lines| - 1][..j];
      FoldFailureIsFinal(lines[..|lines| - 1], j, effect);
    } else {
      assert lines[..j] == lines;
    }
  }

  /** Once a line of the file raises, reading the rest of the file changes nothing. */
  lemma FailureIsFinal(lines: seq<string>, j: nat, parse: RealParser)
    requires j <= |lines|
    requires ScanLines(lines[..j], parse).Failure?
    ensures ScanLines(lines, parse) == ScanLines(lines[..j], parse)
  {
    FoldFailureIsFinal(lines, j, line => LineEffect(line, parse));
  }

  /** A read that succeeds succeeded on every prefix. */
  lemma PrefixSucceeds(lines: seq<string>, i: nat, effect: string -> Result<Effect, CalibError>)
    requires i <= |lines|
    requires Fold(lines, effect).Success?
    ensures Fold(lines[..i], effect).Success?
  {
    if Fold(lines[..i], effect).Failure? {
      FoldFailureIsFinal(lines, i, effect);
    }
  }

  /** When no line after line `i` assigns the focal length, the focal length read is the one
      read up to line `i`. */
  lemma {:induction false} FoldLastFocal(lines: seq<string>, i: nat, effect: string -> Result<Effect, CalibError>)
    requires i < |lines|
    requires Fold(lines, effect).Success? && Fold(lines[..i + 1], effect).Success?
    requires forall j :: i < j < |lines| ==> !WritesFocal(effect(lines[j]))
    ensures Fold(lines, effect).value.focal == Fold(lines[..i + 1], effect).value.focal
    decreases |lines|
  {
    if i + 1 < |lines| {
      var init := lines[..|lines| - 1];
      assert init[..i + 1] == lines[..i + 1];
      assert forall j :: i < j < |init| ==> init[j] == lines[j];
      FoldLastFocal(init, i, effect);
    } else {
      assert lines[..i + 1] == lines;
    }
  }

  /** When no line after line `i` assigns the baseline, the baseline read is the one read up to
      line `i`. */
  lemma {:induction false} FoldLastBaseline(lines: seq<string>, i: nat, effect: string -> Result<Effect, CalibError>)
    requires i < |lines|
    requires Fold(lines, effect).Success? && Fold(lines[..i + 1], effect).Success?
    requires forall j :: i < j < |lines| ==> !WritesBaseline(effect(lines[j]))
    ensures Fold(lines, effect).value.baseline == Fold(lines[..i + 1], effect).value.baseline
    decreases |lines|
  {
    if i + 1 < |lines| {
      var init := lines[..|lines| - 1];
      assert init[..i + 1] == lines[..i + 1];
      assert forall j :: i < j < |init| ==> init[j] == lines[j];
      FoldLastBaseline(init, i, effect);
    } else {
      assert lines[..i + 1] == lines;
    }
  }

  /** The last writer wins: each value read is the one held after line `i` whenever no later
      line is of a kind that assigns it. */
  lemma LastWriterWins(lines: seq<string>, i: nat, parse: RealParser)
    requires i < |lines|
    requires ScanLines(lines, parse).Success?
    ensures ScanLines(lines[..i + 1], parse).Success?
    ensures (forall j :: i < j < |lines| ==> !SetsFocal(Kind(Strip(lines[j])))) ==>
              ScanLines(lines, parse).value.focal == ScanLines(lines[..i + 1], parse).value.focal
    ensures (forall j :: i < j < |lines| ==> !SetsBaseline(Kind(Strip(lines[j])))) ==>
              ScanLines(lines, parse).value.baseline == ScanLines(lines[..i + 1], parse).value.baseline
  {
    var effect := line => LineEffect(line, parse);
    PrefixSucceeds(lines, i + 1, effect);
    if forall j :: i < j < |lines| ==> !SetsFocal(Kind(Strip(lines[j]))) {
      FoldLastFocal(lines, i, effect);
    }
    if forall j :: i < j < |lines| ==> !SetsBaseline(Kind(Strip(lines[j]))) {
      FoldLastBaseline(lines, i, effect);
    }
  }

  /** Inserting a line whose effect is `Keep` anywhere changes nothing. */
  lemma {:induction false} FoldKeepIgnored(before: seq<string>, line: string, after: seq<string>,
                                           effect: string -> Result<Effect, CalibError>)
    requires effect(line) == Success(Keep)
    ensures Fold(before + [line] + after, effect) == Fold(before + after, effect)
    decreases |after|
  {
    if after == [] {
      assert before + [line] + after == before + [line];
      assert before + after == before;
      FoldSnoc(before, line, effect);
    } else {
      var n := |after| - 1;
      FoldKeepIgnored(before, line, after[..n], effect);
      assert before + [line] + after == (before + [line] + after[..n]) + [after[n]];
      assert before + after == (before + after[..n]) + [after[n]];
      FoldSnoc(before + [line] + after[..n], after[n], effect);
      FoldSnoc(before + after[..n], after[n], effect);
    }
  }

  /** An unrecognised line, wherever it stands, changes nothing. */
  lemma UnrecognisedLineIgnored(before: seq<string>, line: string, after: seq<string>, parse: RealParser)
    requires Kind(Strip(line)) == Unrecognised
    ensures ScanLines(before + [line] + after, parse) == ScanLines(before + after, parse)
  {
    FoldKeepIgnored(before, line, after, l => LineEffect(l, parse));
  }

  /** A `P2:` line is handed the whitespace-separated tokens after its label, whatever else
      the line holds; `LeftEffectValue` says what those tokens give. */
  lemma LeftProjectionLine(raw: string, parse: RealParser)
    requires Kind(Strip(raw)) == LeftProjection
    ensures LineEffect(raw, parse) == LeftProjectionEffect(ProjectionTokens(Strip(raw)), parse)
  {
    LineEffectByKind(raw, parse);
  }

  /** The `P2:` effect succeeds exactly on 12 numbers and takes the first of them. */
  lemma LeftEffectValue(tokens: seq<string>, parse: RealParser)
    ensures LeftProjectionEffect(tokens, parse).Success? <==> HoldsMatrix(tokens, parse)
    ensures HoldsMatrix(tokens, parse) ==>
      LeftProjectionEffect(tokens, parse) == Success(SetFocal(parse(tokens[0]).value))
  {
    ProjectionMatrixSpec(tokens, parse);
  }

  /** A `P3:` line is handed the whitespace-separated tokens after its label, whatever else
      the line holds; `RightEffectValue` says what those tokens give. */
  lemma RightProjectionLine(raw: string, parse: RealParser)
    requires Kind(Strip(raw)) == RightProjection
    ensures LineEffect(raw, parse) == RightProjectionEffect(ProjectionTokens(Strip(raw)), parse)
  {
    LineEffectByKind(raw, parse);
  }

  /** The `P3:` effect succeeds exactly on 12 numbers and takes `-tx / f` from them. */
  lemma RightEffectValue(tokens: seq<string>, parse: RealParser)
    ensures RightProjectionEffect(tokens, parse).Success? <==> HoldsMatrix(tokens, parse)
    ensures HoldsMatrix(tokens, parse) && parse(tokens[0]).value != 0.0 ==>
      RightProjectionEffect(tokens, parse) == Success(SetBaseline(-parse(tokens[3]).value / parse(tokens[0]).value))
  {
    ProjectionMatrixSpec(tokens, parse);
    var r := ProjectionMatrix(tokens, parse);
    if r.Success? {
      assert r.value[0] == parse(tokens[0]).value && r.value[3] == parse(tokens[3]).value;
    }
  }

  /** A camera-matrix line sets the focal length to its first number, raises when that is not a
      number, and is skipped when the matrix holds no numbers. */
  lemma CameraLine(raw: string, parse: RealParser)
    requires Kind(Strip(raw)) == CameraMatrix
    ensures var values := CameraValues(Strip(raw));
      && (values == [] ==> LineEffect(raw, parse) == Success(Keep))
      && (values != [] && parse(values[0]).None? ==> LineEffect(raw, parse) == Failure(InvalidNumber(values[0])))
      && (values != [] && parse(values[0]).Some? ==> LineEffect(raw, parse) == Success(SetFocal(parse(values[0]).value)))
  {
    LineEffectByKind(raw, parse);
  }

  /** A `baseline=` line is always millimetres, and a bad number on it raises. */
  lemma BaselineMillimetresLine(raw: string, parse: RealParser)
    requires Kind(Strip(raw)) == BaselineMillimetres
    ensures var text := ValueText(Strip(raw));
      && (parse(text).None? ==> LineEffect(raw, parse) == Failure(InvalidNumber(text)))
      && (parse(text).Some? ==> LineEffect(raw, parse) == Success(SetBaseline(parse(text).value / 1000.0)))
  {
    var line := Strip(raw);
    LineEffectByKind(raw, parse);
    assert LineEffect(raw, parse) == MillimetresEffect(line, parse);
    MillimetresValue(line, parse);
  }

  /** The `baseline=` effect by itself. */
  lemma MillimetresValue(line: string, parse: RealParser)
    requires '=' in line
    ensures var text := ValueText(line);
      && (parse(text).None? ==> MillimetresEffect(line, parse) == Failure(InvalidNumber(text)))
      && (parse(text).Some? ==> MillimetresEffect(line, parse) == Success(SetBaseline(parse(text).value / 1000.0)))
  {
  }

  /** Any other line naming `fx` with exactly one `=` sets the focal length to the number after
      it; with no number, or with no `=` or several, it is skipped. */
  lemma FocalKeyLine(raw: string, parse: RealParser)
    requires Kind(Strip(raw)) == FocalKey
    ensures var line := Strip(raw);
      && LineEffect(raw, parse).Success?
      && ('=' !in line || '=' in ValueText(line) || parse(ValueText(line)).None? ==>
            LineEffect(raw, parse) == Success(Keep))
      && ('=' in line && '=' !in ValueText(line) && parse(ValueText(line)).Some? ==>
            LineEffect(raw, parse) == Success(SetFocal(parse(ValueText(line)).value)))
  {
    var line := Strip(raw);
    LineEffectByKind(raw, parse);
    FocalKeyValue(line, parse);
  }

  /** The `fx` effect by itself, in terms of the text after the first `=`. */
  lemma FocalKeyValue(line: string, parse: RealParser)
    ensures ('=' !in line || '=' in ValueText(line) || parse(ValueText(line)).None?) ==>
              FocalKeyEffect(line, parse) == Keep
    ensures ('=' in line && '=' !in ValueText(line) && parse(ValueText(line)).Some?) ==>
              FocalKeyEffect(line, parse) == SetFocal(parse(ValueText(line)).value)
  {
    KeyValueSpec(line);
    if '=' in line && '=' in ValueText(line) {
      assert '=' in SplitOnce(line, '=').1;
    }
  }

  /** Any other line with a `baseline` key and exactly one `=` keeps a value below 10 as metres
      and divides a larger one by 1000; with no number, or several `=`, it is skipped. */
  lemma BaselineKeyLine(raw: string, parse: RealParser)
    requires Kind(Strip(raw)) == BaselineKey
    ensures var line := Strip(raw);
      && LineEffect(raw, parse).Success?
      && ('=' in ValueText(line) || parse(ValueText(line)).None? ==> LineEffect(raw, parse) == Success(Keep))
      && ('=' !in ValueText(line) && parse(ValueText(line)).Some? ==>
            var x := parse(ValueText(line)).value;
            LineEffect(raw, parse) == Success(SetBaseline(if x < 10.0 then x else x / 1000.0)))
  {
    var line := Strip(raw);
    LineEffectByKind(raw, parse);
    BaselineKeyValue(line, parse);
  }

  /** The other-`baseline` effect by itself, in terms of the text after the first `=`. */
  lemma BaselineKeyValue(line: string, parse: RealParser)
    requires '=' in line
    ensures ('=' in ValueText(line) || parse(ValueText(line)).None?) ==> BaselineKeyEffect(line, parse) == Keep
    ensures ('=' !in ValueText(line) && parse(ValueText(line)).Some?) ==>
              BaselineKeyEffect(line, parse) == SetBaseline(BaselineFromKey(parse(ValueText(line)).value))
  {
    KeyValueSpec(line);
    var after := SplitOnce(line, '=').1;
    if '=' !in after {
      StripKeepsAbsent(after, '=');
      assert KeyValue(line) == Some(ValueText(line));
    } else {
      assert KeyValue(line).None?;
    }
  }

  /** The KITTI case: a file of a `P2:` line and a `P3:` line, each with 12 numbers, reads the
      focal length as the left matrix's [0, 0] entry and the baseline as `-tx / f` of the right
      matrix. */
  lemma KittiPair(p2: string, p3: string, parse: RealParser)
    requires Kind(Strip(p2)) == LeftProjection && Kind(Strip(p3)) == RightProjection
    requires ProjectionMatrix(ProjectionTokens(Strip(p2)), parse).Success?
    requires ProjectionMatrix(ProjectionTokens(Strip(p3)), parse).Success?
    ensures var left := ProjectionMatrix(ProjectionTokens(Strip(p2)), parse).value;
      var right := ProjectionMatrix(ProjectionTokens(Strip(p3)), parse).value;
      ScanLines([p2, p3], parse) == Success(CalibValues(left[0], ProjectionBaseline(right)))
  {
    LeftProjectionLine(p2, parse);
    RightProjectionLine(p3, parse);
    FoldTwo(p2, p3, line => LineEffect(line, parse));
  }

  /** Two lines that do not raise apply their effects in order. */
  lemma FoldTwo(a: string, b: string, effect: string -> Result<Effect, CalibError>)
    requires effect(a).Success? && effect(b).Success?
    ensures Fold([a, b], effect) == Success(Apply(Apply(NothingRead, effect(a).value), effect(b).value))
  {
    FoldSnoc([], a, effect);
    FoldSnoc([a], b, effect);
    assert [] + [a] == [a] && [a] + [b] == [a, b];
  }
}
