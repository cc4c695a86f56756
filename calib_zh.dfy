/** The calibration-text reader of the Chinese version of the tool (`parse_calib_file`): a
    generic `key=value` / `key:value` reader. Every line that holds a separator becomes an entry
    of the `calib_data` dictionary, and an entry whose key mentions `focal` or `baseline` may
    overwrite the focal length or the baseline. Nothing in it raises: a value that is not a
    number is skipped. The tool's own loop is `ToolZh.StereoVisionTool.ParseCalibFile`. */
module CalibZh {
  import opened Wrappers
  import opened Text

  /** One `key`/`value` pair of the file, both stripped. */
  datatype Entry = Entry(key: string, value: string)

  /** The focal length and the baseline of the tool. */
  datatype Lengths = Lengths(focal: real, baseline: real)

  /** The entry of a stripped line split at its first `sep`: the two halves, each stripped. */
  function Halves(line: string, sep: char): Entry
    requires sep in line
  {
    Entry(Strip(SplitOnce(line, sep).0), Strip(SplitOnce(line, sep).1))
  }

  /** One line as the loop reads it: stripped, then split at its first `=`, or at its first `:`
      when it has no `=`, the two halves stripped again. A line with neither separator (a blank
      line among them) gives no entry. */
  function SplitLine(raw: string): (e: Option<Entry>)
    ensures e.None? <==> '=' !in Strip(raw) && ':' !in Strip(raw)
    ensures e.Some? ==> '=' !in e.value.key
    ensures e.Some? && '=' !in Strip(raw) ==> ':' !in e.value.key
    ensures '=' in Strip(raw) ==> e == Some(Halves(Strip(raw), '='))
    ensures '=' !in Strip(raw) && ':' in Strip(raw) ==> e == Some(Halves(Strip(raw), ':'))
  {
    var line := Strip(raw);
    if '=' in line then
      StripKeepsAbsent(SplitOnce(line, '=').0, '=');
      Some(Halves(line, '='))
    else if ':' in line then
      StripKeepsAbsent(SplitOnce(line, ':').0, '=');
      StripKeepsAbsent(SplitOnce(line, ':').0, ':');
      Some(Halves(line, ':'))
    else None
  }

  /** The entry a line gives, as a sequence of none or one. */
  function EntryOf(line: string): (es: seq<Entry>)
    ensures |es| <= 1
  {
    if SplitLine(line).Some? then [SplitLine(line).value] else []
  }

  /** The pieces `f` gives for each line, concatenated in file order. */
  function Gather(lines: seq<string>, f: string -> seq<Entry>): seq<Entry>
    decreases |lines|
  {
    if lines == [] then [] else Gather(lines[..|lines| - 1], f) + f(lines[|lines| - 1])
  }

  /** The entries of the lines, in file order. */
  function Entries(lines: seq<string>): seq<Entry> {
    Gather(lines, EntryOf)
  }

  /** Gathering two runs of lines is gathering the first, then the second. */
  lemma {:induction false} GatherAppend(a: seq<string>, b: seq<string>, f: string -> seq<Entry>)
    ensures Gather(a + b, f) == Gather(a, f) + Gather(b, f)
    decreases |b|
  {
    if b != [] {
      var init := b[..|b| - 1];
      GatherAppend(a, init, f);
      var last := b[|b| - 1];
      assert (a + b)[..|a + b| - 1] == a + init;
      assert Gather(a + b, f) == Gather(a + init, f) + f(last);
      assert Gather(b, f) == Gather(init, f) + f(last);
    } else {
      assert a + b == a;
    }
  }

  /** A line for which `f` gives nothing can be dropped, wherever it stands. */
  lemma GatherSkips(before: seq<string>, line: string, after: seq<string>, f: string -> seq<Entry>)
    requires f(line) == []
    ensures Gather(before + [line] + after, f) == Gather(before + after, f)
  {
    GatherAppend(before + [line], after, f);
    GatherAppend(before, [line], f);
    GatherAppend(before, after, f);
    assert [line][..0] == [];
  }

  /** A line with no separator contributes nothing to the dictionary's entries, wherever it
      stands. */
  lemma SkippedLine(before: seq<string>, line: string, after: seq<string>)
    requires SplitLine(line).None?
    ensures Entries(before + [line] + after) == Entries(before + after)
  {
    assert EntryOf(line) == [];
    GatherSkips(before, line, after, EntryOf);
  }

  /** Reading one more line appends that line's entry, if it has one. */
  lemma EntriesStep(lines: seq<string>, i: nat)
    requires i < |lines|
    ensures Entries(lines[..i + 1]) == Entries(lines[..i]) + EntryOf(lines[i])
  {
    assert lines[..i + 1][..i] == lines[..i];
  }

  /** `calib_data` after the entries: an empty dictionary, then `calib_data[key] = value` for
      each entry in turn. */
  function Dict(es: seq<Entry>): map<string, string>
    decreases |es|
  {
    if es == [] then map[]
    else
      var last := es[|es| - 1];
      Dict(es[..|es| - 1])[last.key := last.value]
  }

  /** The dictionary holds exactly the keys of the entries. */
  lemma {:induction false} DictKeys(es: seq<Entry>, k: string)
    ensures k in Dict(es) <==> exists i :: 0 <= i < |es| && es[i].key == k
    decreases |es|
  {
    if es != [] {
      var init := es[..|es| - 1];
      DictKeys(init, k);
      if exists i :: 0 <= i < |init| && init[i].key == k {
        var i :| 0 <= i < |init| && init[i].key == k;
        assert es[i].key == k;
      }
      if exists i :: 0 <= i < |es| && es[i].key == k {
        var i :| 0 <= i < |es| && es[i].key == k;
        if i < |init| {
          assert init[i].key == k;
        }
      }
    }
  }

  /** A key's value in the dictionary is the value of its last entry: a later duplicate key
      overwrites an earlier one. */
  lemma {:induction false} DictLastWins(es: seq<Entry>, i: nat)
    requires i < |es|
    requires forall j :: i < j < |es| ==> es[j].key != es[i].key
    ensures es[i].key in Dict(es) && Dict(es)[es[i].key] == es[i].value
    decreases |es|
  {
    if i < |es| - 1 {
      var init := es[..|es| - 1];
      DictLastWins(init, i);
    }
  }

  /** A key naming the focal length: it contains `focal` once lower-cased. */
  predicate IsFocalKey(key: string) {
    Contains(Lower(key), "focal")
  }

  /** A key naming the baseline: not a focal key, and it contains `baseline` once lower-cased. */
  predicate IsBaselineKey(key: string) {
    !IsFocalKey(key) && Contains(Lower(key), "baseline")
  }

  /** An entry that overwrites the focal length: a focal key with a number for its value. */
  predicate SetsFocal(e: Entry, parse: RealParser) {
    IsFocalKey(e.key) && parse(e.value).Some?
  }

  /** An entry that overwrites the baseline: a baseline key with a number for its value. */
  predicate SetsBaseline(e: Entry, parse: RealParser) {
    IsBaselineKey(e.key) && parse(e.value).Some?
  }

  /** What one entry does to the lengths: the number of a focal key becomes the focal length,
      the number of a baseline key the baseline, as read (no unit conversion and no sign
      check); anything else, a value that is not a number included, changes nothing. */
  function EntryEffect(v: Lengths, e: Entry, parse: RealParser): (w: Lengths)
    ensures !SetsFocal(e, parse) ==> w.focal == v.focal
    ensures !SetsBaseline(e, parse) ==> w.baseline == v.baseline
  {
    if IsFocalKey(e.key) then
      match parse(e.value)
      case Some(x) => v.(focal := x)
      case None => v
    else if Contains(Lower(e.key), "baseline") then
      match parse(e.value)
      case Some(x) => v.(baseline := x)
      case None => v
    else v
  }

  /** The lengths after the entries, starting from the tool's current ones. */
  function ReadLengths(es: seq<Entry>, start: Lengths, parse: RealParser): Lengths
    decreases |es|
  {
    if es == [] then start
    else EntryEffect(ReadLengths(es[..|es| - 1], start, parse), es[|es| - 1], parse)
  }

  /** The focal length read is the number of the last entry that sets it. */
  lemma {:induction false} LastFocalWins(es: seq<Entry>, i: nat, start: Lengths, parse: RealParser)
    requires i < |es| && SetsFocal(es[i], parse)
    requires forall j :: i < j < |es| ==> !SetsFocal(es[j], parse)
    ensures ReadLengths(es, start, parse).focal == parse(es[i].value).value
    decreases |es|
  {
    var init := es[..|es| - 1];
    if i < |es| - 1 {
      LastFocalWins(init, i, start, parse);
    }
  }

  /** With no entry that sets it, the focal length stays the tool's own. */
  lemma {:induction false} FocalKept(es: seq<Entry>, start: Lengths, parse: RealParser)
    requires forall j :: 0 <= j < |es| ==> !SetsFocal(es[j], parse)
    ensures ReadLengths(es, start, parse).focal == start.focal
    decreases |es|
  {
    if es != [] {
      FocalKept(es[..|es| - 1], start, parse);
    }
  }

  /** The baseline read is the number of the last entry that sets it. */
  lemma {:induction false} LastBaselineWins(es: seq<Entry>, i: nat, start: Lengths, parse: RealParser)
    requires i < |es| && SetsBaseline(es[i], parse)
    requires forall j :: i < j < |es| ==> !SetsBaseline(es[j], parse)
    ensures ReadLengths(es, start, parse).baseline == parse(es[i].value).value
    decreases |es|
  {
    var init := es[..|es| - 1];
    if i < |es| - 1 {
      LastBaselineWins(init, i, start, parse);
    }
  }

  /** With no entry that sets it, the baseline stays the tool's own. */
  lemma {:induction false} BaselineKept(es: seq<Entry>, start: Lengths, parse: RealParser)
    requires forall j :: 0 <= j < |es| ==> !SetsBaseline(es[j], parse)
    ensures ReadLengths(es, start, parse).baseline == start.baseline
    decreases |es|
  {
    if es != [] {
      BaselineKept(es[..|es| - 1], start, parse);
    }
  }

  /** Reading one more line: a line with an entry stores it in the dictionary and applies its
      effect to the lengths; a line without one changes neither. */
  lemma ReadStep(lines: seq<string>, i: nat, start: Lengths, parse: RealParser)
    requires i < |lines|
    ensures var es, es', e := Entries(lines[..i]), Entries(lines[..i + 1]), SplitLine(lines[i]);
      && (e.None? ==> Dict(es') == Dict(es) && ReadLengths(es', start, parse) == ReadLengths(es, start, parse))
      && (e.Some? ==>
            && Dict(es') == Dict(es)[e.value.key := e.value.value]
            && ReadLengths(es', start, parse) == EntryEffect(ReadLengths(es, start, parse), e.value, parse))
  {
    EntriesStep(lines, i);
    var es, es' := Entries(lines[..i]), Entries(lines[..i + 1]);
    var e := SplitLine(lines[i]);
    if e.None? {
      assert EntryOf(lines[i]) == [];
      assert es' == es + [] == es;
    } else {
      assert EntryOf(lines[i]) == [e.value];
      assert es' == es + [e.value];
      assert es'[..|es|] == es && es'[|es|] == e.value;
    }
  }

  /** A key that mentions both `focal` and `baseline` only ever sets the focal length. */
  lemma FocalKeyFirst(e: Entry, v: Lengths, parse: RealParser)
    requires IsFocalKey(e.key) && Contains(Lower(e.key), "baseline")
    ensures EntryEffect(v, e, parse).baseline == v.baseline
    ensures parse(e.value).Some? ==> EntryEffect(v, e, parse).focal == parse(e.value).value
  {
  }
}
