/** The few Python `str` operations the calibration parsers and the save-path rule rely on,
    with Python's meaning: `strip()`, `split()`, `split(sep)`, `split(sep, 1)`, `rsplit(sep, 1)`,
    `startswith`, `endswith`, `in`, `replace` and `lower()`. */
module Text {
  import opened Wrappers

  /** Python's `float(text)` (and numpy's string-to-float32 conversion): `None` when it raises
      `ValueError`. */
  type RealParser = string -> Option<real>

  /** The characters Python's `str.isspace()` accepts; `strip()` and `split()` use this set. */
  predicate IsSpace(c: char) {
    || ('\t' <= c <= '\r')
    || ('\U{1C}' <= c <= ' ')
    || c == '\U{85}' || c == '\U{A0}' || c == '\U{1680}'
    || ('\U{2000}' <= c <= '\U{200A}')
    || c == '\U{2028}' || c == '\U{2029}' || c == '\U{202F}' || c == '\U{205F}' || c == '\U{3000}'
  }

  /** `s.lstrip()`: the suffix of `s` left after its leading whitespace. */
  function TrimStart(s: string): (r: string)
    ensures |r| <= |s| && r == s[|s| - |r|..]
    ensures forall i :: 0 <= i < |s| - |r| ==> IsSpace(s[i])
    ensures r == [] || !IsSpace(r[0])
    decreases |s|
  {
    if |s| > 0 && IsSpace(s[0]) then TrimStart(s[1..]) else s
  }

  /** `s.rstrip()`: the prefix of `s` left before its trailing whitespace. */
  function TrimEnd(s: string): (r: string)
    ensures |r| <= |s| && r == s[..|r|]
    ensures forall i :: |r| <= i < |s| ==> IsSpace(s[i])
    ensures r == [] || !IsSpace(r[|r| - 1])
    decreases |s|
  {
    if |s| > 0 && IsSpace(s[|s| - 1]) then TrimEnd(s[..|s| - 1]) else s
  }

  /** `s.strip()`: `s` without leading and trailing whitespace. */
  function Strip(s: string): (r: string)
    ensures |r| <= |s|
    ensures r == [] || (!IsSpace(r[0]) && !IsSpace(r[|r| - 1]))
    ensures s == [] || (!IsSpace(s[0]) && !IsSpace(s[|s| - 1])) ==> r == s
  {
    TrimEnd(TrimStart(s))
  }

  /** What `strip()` removes: `Strip(s)` is the run of characters of `s` that starts after its
      `a` leading whitespace characters, and everything after that run is whitespace too.
      Stated apart from `Strip` so that its callers do not all carry it. */
  lemma StripSpec(s: string)
    ensures var r := Strip(s); var a := |s| - |TrimStart(s)|;
      && a + |r| <= |s| && (forall k :: 0 <= k < |r| ==> r[k] == s[a + k])
      && (forall i :: 0 <= i < a ==> IsSpace(s[i]))
      && (forall i :: a + |r| <= i < |s| ==> IsSpace(s[i]))
  {
    var t := TrimStart(s);
    SliceOfSuffix(s, t, TrimEnd(t));
  }

  /** A prefix `r` of a suffix `t` of `s` is a run of characters of `s`; whitespace that
      precedes `t` in `s` or follows `r` in `t` surrounds that run in `s`. */
  lemma SliceOfSuffix(s: string, t: string, r: string)
    requires |t| <= |s| && t == s[|s| - |t|..] && |r| <= |t| && r == t[..|r|]
    requires forall i :: 0 <= i < |s| - |t| ==> IsSpace(s[i])
    requires forall i :: |r| <= i < |t| ==> IsSpace(t[i])
    ensures var a := |s| - |t|;
      && a + |r| <= |s| && (forall k :: 0 <= k < |r| ==> r[k] == s[a + k])
      && (forall i :: 0 <= i < a ==> IsSpace(s[i]))
      && (forall i :: a + |r| <= i < |s| ==> IsSpace(s[i]))
  {
    var a := |s| - |t|;
    forall i | a + |r| <= i < |s|
      ensures IsSpace(s[i])
    {
      assert s[i] == t[i - a];
    }
  }

  /** Stripping never brings in a character the text did not hold. */
  lemma StripKeepsAbsent(s: string, c: char)
    requires c !in s
    ensures c !in Strip(s)
  {
    var t := TrimStart(s);
    assert t == s[|s| - |t|..];
    assert Strip(s) == t[..|Strip(s)|];
  }

  /** `s.startswith(p)`. */
  predicate StartsWith(s: string, p: string) {
    |p| <= |s| && s[..|p|] == p
  }

  /** `s.endswith(p)`. */
  predicate EndsWith(s: string, p: string) {
    |p| <= |s| && s[|s| - |p|..] == p
  }

  /** `sub in s` for strings: `sub` occurs in `s` at some position. */
  predicate Contains(s: string, sub: string)
    decreases |s|
  {
    StartsWith(s, sub) || (|s| > 0 && Contains(s[1..], sub))
  }

  /** `s.lower()` on ASCII letters; every other character is kept. */
  function Lower(s: string): (r: string)
    ensures |r| == |s|
  {
    seq(|s|, i requires 0 <= i < |s| => if 'A' <= s[i] <= 'Z' then (s[i] as int + 32) as char else s[i])
  }

  /** The position of the first `c` in `s`. */
  function IndexOf(s: string, c: char): (i: nat)
    requires c in s
    ensures i < |s| && s[i] == c && c !in s[..i]
  {
    if s[0] == c then 0 else 1 + IndexOf(s[1..], c)
  }

  /** `s.split(c, 1)` when `c` occurs in `s`: the text before its first occurrence and the text after it. */
  function SplitOnce(s: string, c: char): (r: (string, string))
    requires c in s
    ensures r.0 + [c] + r.1 == s
    ensures c !in r.0
  {
    var i := IndexOf(s, c);
    assert s == s[..i] + [c] + s[i + 1..];
    (s[..i], s[i + 1..])
  }

  /** `c.join(parts)`: the pieces with one `c` between each two neighbours. */
  function Join(parts: seq<string>, c: char): string
    requires |parts| >= 1
    decreases |parts|
  {
    if |parts| == 1 then parts[0] else parts[0] + [c] + Join(parts[1..], c)
  }

  /** `s.split(c)` for a one-character separator: the pieces between the occurrences of `c`, which
      joined with `c` give `s` back. */
  function Split(s: string, c: char): (parts: seq<string>)
    ensures |parts| >= 1
    ensures forall k :: 0 <= k < |parts| ==> c !in parts[k]
    ensures Join(parts, c) == s
    decreases |s|
  {
    if c in s then
      var (before, after) := SplitOnce(s, c);
      var rest := Split(after, c);
      assert ([before] + rest)[1..] == rest;
      [before] + rest
    else
      [s]
  }

  /** `s.split(c)` has exactly two pieces precisely when `c` occurs exactly once, and the second
      piece is then everything after it. */
  lemma SplitInTwo(s: string, c: char)
    ensures |Split(s, c)| == 2 <==> c in s && c !in SplitOnce(s, c).1
    ensures |Split(s, c)| == 2 ==> Split(s, c)[1] == SplitOnce(s, c).1
  {
    if c in s {
      var after := SplitOnce(s, c).1;
      if c in after {
        assert |Split(after, c)| >= 2;
      }
    }
  }

  /** The length of the run of non-whitespace characters at the start of `s`. */
  function WordLength(s: string): (n: nat)
    ensures n <= |s|
    ensures forall i :: 0 <= i < n ==> !IsSpace(s[i])
    ensures n < |s| ==> IsSpace(s[n])
    decreases |s|
  {
    if |s| == 0 || IsSpace(s[0]) then 0 else 1 + WordLength(s[1..])
  }

  /** A non-empty run of characters none of which is whitespace. */
  predicate IsWord(w: string) {
    |w| > 0 && forall i :: 0 <= i < |w| ==> !IsSpace(w[i])
  }

  /** `s.split()`: the maximal runs of non-whitespace characters of `s`, in order. */
  function Words(s: string): seq<string>
    decreases |s|
  {
    var t := TrimStart(s);
    if t == [] then []
    else
      var n := WordLength(t);
      FirstWord(t);
      [t[..n]] + Words(t[n..])
  }

  /** Every piece `s.split()` returns is a non-empty run of non-whitespace characters. */
  lemma {:induction false} WordsAreWords(s: string)
    ensures forall k :: 0 <= k < |Words(s)| ==> IsWord(Words(s)[k])
    decreases |s|
  {
    var t := TrimStart(s);
    if t != [] {
      var n := WordLength(t);
      FirstWord(t);
      var rest := Words(t[n..]);
      WordsAreWords(t[n..]);
      assert Words(s) == [t[..n]] + rest;
      forall k | 0 <= k < |Words(s)|
        ensures IsWord(Words(s)[k])
      {
        if k > 0 {
          assert Words(s)[k] == rest[k - 1];
        }
      }
    }
  }

  /** A text that does not start with whitespace starts with a word. */
  lemma FirstWord(t: string)
    requires t != [] && !IsSpace(t[0])
    ensures 0 < WordLength(t) && IsWord(t[..WordLength(t)])
  {
  }

  /** `s.replace(c, "")`. */
  function RemoveChar(s: string, c: char): (r: string)
    ensures c !in r
    ensures c !in s ==> r == s
    decreases |s|
  {
    if s == [] then []
    else (if s[0] == c then [] else [s[0]]) + RemoveChar(s[1..], c)
  }

  /** `s.replace(c, d)` for single characters. */
  function ReplaceChar(s: string, c: char, d: char): (r: string)
    ensures |r| == |s|
    ensures c != d ==> c !in r
  {
    seq(|s|, i requires 0 <= i < |s| => if s[i] == c then d else s[i])
  }

  /** `s.rsplit(c, 1)[0]`: the text before the last `c`, or all of `s` when it has none. */
  function BeforeLast(s: string, c: char): (r: string)
    ensures c in s ==> |r| < |s| && r == s[..|r|] && s[|r|] == c && c !in s[|r| + 1..]
    ensures c !in s ==> r == s
    decreases |s|
  {
    if c !in s then s
    else if s[|s| - 1] == c then s[..|s| - 1]
    else
      assert c in s[..|s| - 1] by {
        var i :| 0 <= i < |s| && s[i] == c;
        assert s[..|s| - 1][i] == c;
      }
      BeforeLast(s[..|s| - 1], c)
  }

  /** Whatever follows the last `c` cannot move it: `rsplit` on `p + c + t` gives back `p`
      whenever `t` has no `c`. */
  lemma BeforeLastOfSuffix(p: string, c: char, t: string)
    requires c !in t
    ensures BeforeLast(p + [c] + t, c) == p
  {
    var s := p + [c] + t;
    assert s[|p|] == c;
    var r := BeforeLast(s, c);
    assert r == s[..|p|] == p;
  }
}
