/**
 * The maintenance script that strips the `# file://…` header line from
 * the chunk text of points written before version 11.0.0: semantic version
 * parsing and comparison, the search for the payload field holding the
 * text, the header test, the per-point decision and the header removal.
 *
 * A payload, after `model_dump`, is modelled as its items in iteration
 * order; only whether a value is a string, and which string, matters here.
 * Python's `int()` on a version part is modelled for ASCII digits with
 * surrounding whitespace.
 */
module ContextHeaders {
  import opened Wrappers
  import PyStr

  // ---------------------------------------------------------------------
  // Versions
  // ---------------------------------------------------------------------

  /** `(major, minor, patch)`, compared as Python compares tuples. */
  datatype Semver = Semver(major: nat, minor: nat, patch: nat)

  predicate Less(a: Semver, b: Semver)
  {
    a.major < b.major
    || (a.major == b.major && (a.minor < b.minor || (a.minor == b.minor && a.patch < b.patch)))
  }

  /** Tuple order is a strict total order. */
  lemma LessTrichotomy(a: Semver, b: Semver)
    ensures !(Less(a, b) && Less(b, a))
    ensures Less(a, b) || Less(b, a) || a == b
  {
  }

  /** The separators of `re.split(r"[.\-+]", v)`. */
  predicate IsSep(c: char)
  {
    c == '.' || c == '-' || c == '+'
  }

  predicate NoSep(s: string)
  {
    forall i :: 0 <= i < |s| ==> !IsSep(s[i])
  }

  /** `re.split(r"[.\-+]", s)`: the pieces between separators, at least one. */
  function SplitSeps(s: string): (r: seq<string>)
    ensures |r| >= 1
    decreases |s|
  {
    if |s| == 0 then [""]
    else if IsSep(s[0]) then [""] + SplitSeps(s[1..])
    else
      var t := SplitSeps(s[1..]);
      [[s[0]] + t[0]] + t[1..]
  }

  lemma {:induction false} SplitSepsPlain(s: string)
    requires NoSep(s)
    ensures SplitSeps(s) == [s]
    decreases |s|
  {
    if |s| > 0 {
      SplitSepsPlain(s[1..]);
      assert [s[0]] + s[1..] == s;
    }
  }

  /** A separator-free piece followed by a separator is split off whole. */
  lemma {:induction false} SplitSepsAfter(a: string, c: char, rest: string)
    requires NoSep(a) && IsSep(c)
    ensures SplitSeps(a + [c] + rest) == [a] + SplitSeps(rest)
    decreases |a|
  {
    if |a| == 0 {
      assert a + [c] + rest == [c] + rest;
      assert ([c] + rest)[1..] == rest;
    } else {
      var s := a + [c] + rest;
      assert s[1..] == a[1..] + [c] + rest;
      SplitSepsAfter(a[1..], c, rest);
      assert [a[0]] + a[1..] == a;
    }
  }

  predicate AllDigits(s: string)
  {
    forall i :: 0 <= i < |s| ==> '0' <= s[i] <= '9'
  }

  /** The decimal value of a string of digits. */
  function DigitsValue(s: string): (n: nat)
    requires AllDigits(s)
  {
    if |s| == 0 then 0 else DigitsValue(s[..|s| - 1]) * 10 + (s[|s| - 1] as int - '0' as int)
  }

  /** `int(p)`, with 0 where it raises. */
  function PartValue(p: string): (n: nat)
  {
    var t := PyStr.Strip(p);
    if |t| > 0 && AllDigits(t) then DigitsValue(t) else 0
  }

  /** Part `i` of the split, and 0 where the version has fewer parts. */
  function PartAt(parts: seq<string>, i: nat): (n: nat)
  {
    if i < |parts| then PartValue(parts[i]) else 0
  }

  /** The version without one leading `v` or `V`. */
  function Bare(s: string): string
  {
    if |s| > 0 && (s[0] == 'v' || s[0] == 'V') then s[1..] else s
  }

  /** The first three parts as numbers, 0 for a missing or unreadable one. */
  function Triple(parts: seq<string>): Semver
  {
    Semver(PartAt(parts, 0), PartAt(parts, 1), PartAt(parts, 2))
  }

  /** `semver_tuple(v)`. */
  function SemverTuple(v: string): (r: Semver)
    ensures |v| == 0 ==> r == Semver(0, 0, 0)
  {
    if |v| == 0 then Semver(0, 0, 0) else Triple(SplitSeps(Bare(PyStr.Strip(v))))
  }

  /** `is_version_lt(version, ref)`: a missing or empty version counts as "0.0.0". */
  function IsVersionLt(version: Option<string>, ref: string): (r: bool)
  {
    var v := if version.Some? && version.value != "" then version.value else "0.0.0";
    Less(SemverTuple(v), SemverTuple(ref))
  }

  /** `str(n)` read back by `int()`. */
  lemma {:induction false} DigitsOfNat(n: nat)
    ensures AllDigits(PyStr.NatToString(n)) && DigitsValue(PyStr.NatToString(n)) == n
  {
    if n >= 10 {
      DigitsOfNat(n / 10);
      var s := PyStr.NatToString(n);
      assert s[..|s| - 1] == PyStr.NatToString(n / 10);
    }
  }

  /** A non-empty run of ASCII digits, as `str(n)` writes a natural number. */
  predicate Numeral(s: string)
  {
    |s| > 0 && AllDigits(s)
  }

  lemma NumeralNoSep(x: string)
    requires Numeral(x)
    ensures NoSep(x) && PyStr.IsStripped(x)
  {
  }

  /** `int()` reads a numeral as its decimal value. */
  lemma PartOfNumeral(x: string)
    requires Numeral(x)
    ensures PartValue(x) == DigitsValue(x)
  {
    NumeralNoSep(x);
    PyStr.StripOfStripped(x);
  }

  /** `x.y.z`. */
  function Dotted(x: string, y: string, z: string): string
  {
    x + "." + y + "." + z
  }

  /** The first three pieces of `x.y.z`, followed by nothing or by a separator and anything. */
  lemma SplitDotted(x: string, y: string, z: string, tail: string)
    requires NoSep(x) && NoSep(y) && NoSep(z)
    requires tail == [] || IsSep(tail[0])
    ensures var p := SplitSeps(Dotted(x, y, z) + tail);
      |p| >= 3 && p[0] == x && p[1] == y && p[2] == z
  {
    var w := z + tail;
    SplitHead(z, tail);
    var v := y + ['.'] + w;
    SplitSepsAfter(y, '.', w);
    SplitSepsAfter(x, '.', v);
    DottedAssoc(x, y, z, tail);
  }

  /** A separator-free piece followed by nothing or a separator is the first piece. */
  lemma SplitHead(z: string, tail: string)
    requires NoSep(z)
    requires tail == [] || IsSep(tail[0])
    ensures |SplitSeps(z + tail)| >= 1 && SplitSeps(z + tail)[0] == z
  {
    if tail == [] {
      assert z + tail == z;
      SplitSepsPlain(z);
    } else {
      assert z + tail == z + [tail[0]] + tail[1..];
      SplitSepsAfter(z, tail[0], tail[1..]);
    }
  }

  lemma DottedAssoc(x: string, y: string, z: string, tail: string)
    ensures Dotted(x, y, z) + tail == x + ['.'] + (y + ['.'] + (z + tail))
  {
  }

  /**
   * `semver_tuple` reads the three numbers of `x.y.z`, with or without a
   * leading `v` or `V`, and ignores a pre-release or build tail.
   */
  lemma SemverOfDotted(prefix: string, x: string, y: string, z: string, tail: string)
    requires prefix == "" || prefix == "v" || prefix == "V"
    requires Numeral(x) && Numeral(y) && Numeral(z)
    requires tail == [] || (IsSep(tail[0]) && !PyStr.IsSpace(tail[|tail| - 1]))
    ensures SemverTuple(prefix + Dotted(x, y, z) + tail)
      == Semver(DigitsValue(x), DigitsValue(y), DigitsValue(z))
  {
    var body := Dotted(x, y, z) + tail;
    assert prefix + Dotted(x, y, z) + tail == prefix + body;
    NumeralNoSep(x); NumeralNoSep(y); NumeralNoSep(z);
    DottedEnds(x, y, z, tail);
    SemverOfBody(prefix, body);
    SplitDotted(x, y, z, tail);
    TripleOfNumerals(SplitSeps(body), x, y, z);
  }

  /** `x.y.z` and its tail start with a digit and end with no whitespace. */
  lemma DottedEnds(x: string, y: string, z: string, tail: string)
    requires Numeral(x) && Numeral(z)
    requires tail == [] || !PyStr.IsSpace(tail[|tail| - 1])
    ensures var body := Dotted(x, y, z) + tail;
      |body| > 0 && '0' <= body[0] <= '9' && !PyStr.IsSpace(body[|body| - 1])
  {
    var body := Dotted(x, y, z) + tail;
    assert body[0] == x[0];
    assert body[|body| - 1] == (if tail == [] then z[|z| - 1] else tail[|tail| - 1]);
  }

  /** Strip and the removal of a `v` leave the body to split. */
  lemma SemverOfBody(prefix: string, body: string)
    requires prefix == "" || prefix == "v" || prefix == "V"
    requires |body| > 0 && '0' <= body[0] <= '9' && !PyStr.IsSpace(body[|body| - 1])
    ensures SemverTuple(prefix + body) == Triple(SplitSeps(body))
  {
    StrippedBody(prefix, body);
    BareOfPrefix(prefix, body);
  }

  lemma StrippedBody(prefix: string, body: string)
    requires prefix == "" || prefix == "v" || prefix == "V"
    requires |body| > 0 && '0' <= body[0] <= '9' && !PyStr.IsSpace(body[|body| - 1])
    ensures PyStr.Strip(prefix + body) == prefix + body
  {
    var v := prefix + body;
    assert v[0] == (if prefix == "" then body[0] else prefix[0]);
    assert v[|v| - 1] == body[|body| - 1];
    PyStr.StripOfStripped(v);
  }

  lemma BareOfPrefix(prefix: string, body: string)
    requires prefix == "" || prefix == "v" || prefix == "V"
    requires |body| > 0 && '0' <= body[0] <= '9'
    ensures Bare(prefix + body) == body
  {
    if prefix != "" {
      assert (prefix + body)[1..] == body;
    }
  }

  lemma TripleOfNumerals(p: seq<string>, x: string, y: string, z: string)
    requires Numeral(x) && Numeral(y) && Numeral(z)
    requires |p| >= 3 && p[0] == x && p[1] == y && p[2] == z
    ensures Triple(p) == Semver(DigitsValue(x), DigitsValue(y), DigitsValue(z))
  {
    PartOfNumeral(x); PartOfNumeral(y); PartOfNumeral(z);
  }

  /** `a.b.c` as `str` writes it. */
  function Render(a: nat, b: nat, c: nat): string
  {
    Dotted(PyStr.NatToString(a), PyStr.NatToString(b), PyStr.NatToString(c))
  }

  /** Rendering three numbers and parsing them back gives the same numbers. */
  lemma SemverRoundTrip(a: nat, b: nat, c: nat, prefix: string)
    requires prefix == "" || prefix == "v" || prefix == "V"
    ensures SemverTuple(prefix + Render(a, b, c)) == Semver(a, b, c)
  {
    DigitsOfNat(a); DigitsOfNat(b); DigitsOfNat(c);
    assert prefix + Render(a, b, c) == prefix + Render(a, b, c) + [];
    SemverOfDotted(prefix, PyStr.NatToString(a), PyStr.NatToString(b), PyStr.NatToString(c), []);
  }

  /** A single word that is not a number, such as `latest`, counts as 0.0.0. */
  lemma WordIsZero(w: string)
    requires |w| > 0 && NoSep(w) && PyStr.IsStripped(w) && !AllDigits(w)
    requires w[0] != 'v' && w[0] != 'V'
    ensures SemverTuple(w) == Semver(0, 0, 0)
  {
    PyStr.StripOfStripped(w);
    SplitSepsPlain(w);
  }

  /** A missing or empty version compares as 0.0.0: older than any reference but 0.0.0 itself. */
  lemma MissingVersionIsZero(ref: string)
    ensures IsVersionLt(None, ref) == IsVersionLt(Some(""), ref) == IsVersionLt(Some("0.0.0"), ref)
  {
  }

  lemma MissingVersionIsOlder(ref: string)
    ensures IsVersionLt(None, ref) <==> SemverTuple(ref) != Semver(0, 0, 0)
  {
    ZeroVersion();
    ZeroIsLeast(SemverTuple(ref));
  }

  lemma ZeroVersion()
    ensures SemverTuple("0.0.0") == Semver(0, 0, 0)
  {
    assert "0.0.0" == "" + Render(0, 0, 0);
    SemverRoundTrip(0, 0, 0, "");
  }

  /** 0.0.0 is below every other version. */
  lemma ZeroIsLeast(t: Semver)
    ensures Less(Semver(0, 0, 0), t) <==> t != Semver(0, 0, 0)
  {
    assert t == Semver(t.major, t.minor, t.patch);
  }

  /** A release before 11.0.0 is selected. */
  lemma OlderIsSelected()
    ensures IsVersionLt(Some("v10.9.9"), "v11.0.0")
  {
    CutoffVersion();
    OlderVersion();
  }

  /** 11.0.0 itself is not selected. */
  lemma CutoffNotSelected()
    ensures !IsVersionLt(Some("v11.0.0"), "v11.0.0")
  {
    CutoffVersion();
  }

  /** A pre-release of 11.0.0 counts as 11.0.0 and is not selected. */
  lemma PreReleaseNotSelected()
    ensures !IsVersionLt(Some("11.0.0-rc1"), "v11.0.0")
  {
    CutoffVersion();
    PreReleaseVersion();
  }

  lemma CutoffVersion()
    ensures SemverTuple("v11.0.0") == Semver(11, 0, 0)
  {
    assert "v11.0.0" == "v" + Render(11, 0, 0);
    SemverRoundTrip(11, 0, 0, "v");
  }

  lemma OlderVersion()
    ensures SemverTuple("v10.9.9") == Semver(10, 9, 9)
  {
    assert "v10.9.9" == "v" + Render(10, 9, 9);
    SemverRoundTrip(10, 9, 9, "v");
  }

  lemma PreReleaseVersion()
    ensures SemverTuple("11.0.0-rc1") == Semver(11, 0, 0)
  {
    assert "11.0.0-rc1" == "" + Dotted("11", "0", "0") + "-rc1";
    SemverOfDotted("", "11", "0", "0", "-rc1");
  }

  // ---------------------------------------------------------------------
  // The text field
  // ---------------------------------------------------------------------

  /** One payload item; `text` is the value when it is a string. */
  datatype Item = Item(key: string, text: Option<string>)

  /** The string value under `k`, if the payload has `k` and its value is a string. */
  function StrValue(d: seq<Item>, k: string): (r: Option<string>)
  {
    if |d| == 0 then None
    else if d[0].key == k then d[0].text
    else StrValue(d[1..], k)
  }

  /** A dumped payload is a dict: no key twice. */
  predicate DistinctKeys(d: seq<Item>)
  {
    forall i, j :: 0 <= i < j < |d| ==> d[i].key != d[j].key
  }

  /** The fixed field names tried first, in order. */
  const Candidates: seq<string> := ["cpntext", "chunk_text", "text", "content", "body"]

  /** The first name of `ks` whose value is a string. */
  function FirstStrKey(d: seq<Item>, ks: seq<string>): (r: Option<string>)
    ensures r.None? <==> forall i :: 0 <= i < |ks| ==> StrValue(d, ks[i]).None?
  {
    if |ks| == 0 then None
    else if StrValue(d, ks[0]).Some? then Some(ks[0])
    else FirstStrKey(d, ks[1..])
  }

  /** The name found is the first of `ks` with a string value. */
  lemma {:induction false} FirstStrKeyIsFirst(d: seq<Item>, ks: seq<string>)
    requires FirstStrKey(d, ks).Some?
    ensures exists i :: (0 <= i < |ks| && ks[i] == FirstStrKey(d, ks).value && StrValue(d, ks[i]).Some?
                         && forall j :: 0 <= j < i ==> StrValue(d, ks[j]).None?)
  {
    if StrValue(d, ks[0]).None? {
      FirstStrKeyIsFirst(d, ks[1..]);
      var i :| 0 <= i < |ks[1..]| && ks[1..][i] == FirstStrKey(d, ks).value && StrValue(d, ks[1..][i]).Some?
        && forall j :: 0 <= j < i ==> StrValue(d, ks[1..][j]).None?;
      assert ks[i + 1] == FirstStrKey(d, ks).value && forall j :: 0 <= j < i + 1 ==> StrValue(d, ks[j]).None?;
    } else {
      assert ks[0] == FirstStrKey(d, ks).value;
    }
  }

  /** A string value that looks like chunk text: several lines, or a Markdown heading. */
  predicate Texty(item: Item)
  {
    item.text.Some? && (!PyStr.HasNoChar(item.text.value, '\n') || PyStr.StartsWith(item.text.value, "# "))
  }

  /** The first item, in iteration order, that looks like chunk text. */
  function GuessTextKey(d: seq<Item>): (r: Option<string>)
    ensures r.None? <==> forall i :: 0 <= i < |d| ==> !Texty(d[i])
  {
    if |d| == 0 then None
    else if Texty(d[0]) then Some(d[0].key)
    else GuessTextKey(d[1..])
  }

  /** The key guessed is that of the first text-like item. */
  lemma {:induction false} GuessIsFirst(d: seq<Item>)
    requires GuessTextKey(d).Some?
    ensures exists i :: (0 <= i < |d| && d[i].key == GuessTextKey(d).value && Texty(d[i])
                         && forall j :: 0 <= j < i ==> !Texty(d[j]))
  {
    if !Texty(d[0]) {
      GuessIsFirst(d[1..]);
      var i :| 0 <= i < |d[1..]| && d[1..][i].key == GuessTextKey(d).value && Texty(d[1..][i])
        && forall j :: 0 <= j < i ==> !Texty(d[1..][j]);
      assert d[i + 1].key == GuessTextKey(d).value && forall j :: 0 <= j < i + 1 ==> !Texty(d[j]);
    }
  }

  /** `resolve_text_field`: the first candidate holding a string, else the first text-like item. */
  function ResolveTextField(d: seq<Item>): (r: Option<string>)
  {
    var named := FirstStrKey(d, Candidates);
    if named.Some? then named else GuessTextKey(d)
  }

  /**
   * What `resolve_text_field` finds: the first candidate name with a
   * string value when there is one; otherwise the first text-like item;
   * nothing when neither exists.
   */
  lemma ResolveTextFieldSpec(d: seq<Item>)
    ensures var r := ResolveTextField(d);
      (r.None? <==> (forall i :: 0 <= i < |Candidates| ==> StrValue(d, Candidates[i]).None?)
                    && (forall i :: 0 <= i < |d| ==> !Texty(d[i])))
      && ((exists i :: 0 <= i < |Candidates| && StrValue(d, Candidates[i]).Some?) ==>
            r.Some? && r.value in Candidates && StrValue(d, r.value).Some?)
      && ((forall i :: 0 <= i < |Candidates| ==> StrValue(d, Candidates[i]).None?) ==>
            r == GuessTextKey(d))
  {
    if FirstStrKey(d, Candidates).Some? {
      FirstStrKeyIsFirst(d, Candidates);
    }
  }

  /** A model dump always carries `chunk_text` as a string, so that is the field found. */
  lemma ChunkTextFound(d: seq<Item>)
    requires StrValue(d, "chunk_text").Some? && StrValue(d, "cpntext").None?
    ensures ResolveTextField(d) == Some("chunk_text")
  {
    assert Candidates[0] == "cpntext" && Candidates[1..][0] == "chunk_text";
    assert FirstStrKey(d, Candidates) == FirstStrKey(d, Candidates[1..]);
  }

  // ---------------------------------------------------------------------
  // Header removal
  // ---------------------------------------------------------------------

  /** `has_file_header(line)`: the stripped, lower-cased line starts with `# file://`. */
  predicate HasFileHeader(line: string)
  {
    PyStr.StartsWith(PyStr.Lower(PyStr.Strip(line)), "# file://")
  }

  /** The header is recognised in either case and with surrounding whitespace. */
  lemma HeaderOfPath(indent: string, marker: string, path: string)
    requires marker == "# file://" || marker == "# FILE://" || marker == "# File://"
    requires forall i :: 0 <= i < |indent| ==> PyStr.IsSpace(indent[i])
    requires PyStr.IsStripped(path)
    ensures HasFileHeader(indent + marker + path)
  {
    var core := marker + path;
    assert core[0] == '#' && core[|core| - 1] == (if |path| == 0 then '/' else path[|path| - 1]);
    assert indent + marker + path == indent + core;
    StripAfterIndent(indent, core);
    LowerMarker(marker, path);
  }

  lemma LowerMarker(marker: string, path: string)
    requires marker == "# file://" || marker == "# FILE://" || marker == "# File://"
    ensures PyStr.StartsWith(PyStr.Lower(marker + path), "# file://")
  {
    var low := PyStr.Lower(marker + path);
    assert low[..9] == PyStr.Lower(marker);
  }

  /** Leading whitespace before a stripped text is removed by `strip()`. */
  lemma {:induction false} StripAfterIndent(indent: string, core: string)
    requires forall i :: 0 <= i < |indent| ==> PyStr.IsSpace(indent[i])
    requires |core| > 0 && PyStr.IsStripped(core)
    ensures PyStr.Strip(indent + core) == core
  {
    PyStr.StripOfStripped(core);
    StripIndentSteps(indent, core);
  }

  lemma {:induction false} StripIndentSteps(indent: string, core: string)
    requires forall i :: 0 <= i < |indent| ==> PyStr.IsSpace(indent[i])
    requires |core| > 0 && PyStr.IsStripped(core)
    ensures PyStr.Strip(indent + core) == PyStr.Strip(core)
    decreases |indent|
  {
    if |indent| > 0 {
      var s := indent + core;
      assert s[1..] == indent[1..] + core;
      StripSkipsSpace(s);
      StripIndentSteps(indent[1..], core);
    } else {
      assert indent + core == core;
    }
  }

  lemma StripSkipsSpace(s: string)
    requires |s| > 0 && PyStr.IsSpace(s[0])
    ensures PyStr.Strip(s) == PyStr.Strip(s[1..])
  {
    assert PyStr.LStrip(s) == PyStr.LStrip(s[1..]);
  }

  /** A Markdown heading is not a file header. */
  lemma HeadingIsNotHeader()
    ensures !HasFileHeader("# Title")
  {
    PyStr.StripOfStripped("# Title");
    assert PyStr.Lower("# Title")[2] == 't';
  }

  /** The text after the header line of step 3, or nothing when the first line is no longer a header. */
  function RemoveHeader(text: string): (r: Option<string>)
  {
    var lines := PyStr.SplitLines(text);
    if |lines| == 0 || !HasFileHeader(lines[0]) then None
    else Some(PyStr.Join(lines[1..], "\n"))
  }

  /**
   * Removal applies exactly to text whose first line is a header, and the
   * new text has the remaining lines in order (a final empty line aside,
   * which `splitlines` does not report).
   */
  lemma RemoveHeaderKeepsRest(text: string)
    ensures var lines := PyStr.SplitLines(text);
      (RemoveHeader(text).Some? <==> |lines| > 0 && HasFileHeader(lines[0]))
      && (RemoveHeader(text).Some? ==>
            PyStr.SplitLines(RemoveHeader(text).value) == PyStr.DropFinalEmpty(lines[1..]))
  {
    var lines := PyStr.SplitLines(text);
    if |lines| > 0 && HasFileHeader(lines[0]) {
      assert PyStr.AllNoLineBreak(lines[1..]);
      PyStr.SplitLinesOfJoin(lines[1..]);
    }
  }

  // ---------------------------------------------------------------------
  // The per-point decision and the update
  // ---------------------------------------------------------------------

  datatype Outcome =
    | NotOld                                   // version 11.0.0 or later: left alone silently
    | NoTextField                              // skipped: no recognizable text field
    | EmptyText                                // skipped: the text has no lines
    | NoHeader                                 // skipped: the first line is not a file header
    | Candidate(field: string, text: string)   // to be rewritten

  /**
   * Step 1 for one parsed point with version `version` and dumped payload
   * `d`. A field named by the empty string counts as no field, as Python's
   * `not text_field` does.
   */
  function Classify(version: Option<string>, d: seq<Item>): (r: Outcome)
    requires DistinctKeys(d)
    ensures r == NotOld <==> !IsVersionLt(version, "v11.0.0")
    ensures r == NoTextField <==>
      (IsVersionLt(version, "v11.0.0") && (ResolveTextField(d).None? || ResolveTextField(d) == Some("")))
    ensures r.Candidate? ==>
      (IsVersionLt(version, "v11.0.0") && Some(r.field) == ResolveTextField(d)
       && StrValue(d, r.field) == Some(r.text) && RemoveHeader(r.text).Some?)
  {
    if !IsVersionLt(version, "v11.0.0") then NotOld
    else
      var field := ResolveTextField(d);
      if field.None? || field.value == "" then NoTextField
      else
        ResolveTextFieldSpec(d);
        FieldHasString(d);
        var text := StrValue(d, field.value).value;
        var lines := PyStr.SplitLines(text);
        if |lines| == 0 then EmptyText
        else if HasFileHeader(lines[0]) then Candidate(field.value, text)
        else NoHeader
  }

  /** A found field always holds a string. */
  lemma FieldHasString(d: seq<Item>)
    requires DistinctKeys(d) && ResolveTextField(d).Some?
    ensures StrValue(d, ResolveTextField(d).value).Some?
  {
    if FirstStrKey(d, Candidates).None? {
      GuessIsFirst(d);
      var i :| 0 <= i < |d| && d[i].key == GuessTextKey(d).value && Texty(d[i])
        && forall j :: 0 <= j < i ==> !Texty(d[j]);
      FirstItemWins(d, i);
    } else {
      FirstStrKeyIsFirst(d, Candidates);
    }
  }

  /** With distinct keys, the value looked up under an item's key is that item's. */
  lemma {:induction false} FirstItemWins(d: seq<Item>, i: nat)
    requires i < |d| && d[i].text.Some?
    requires forall j :: 0 <= j < i ==> d[j].key != d[i].key
    ensures StrValue(d, d[i].key).Some?
  {
    if i > 0 && d[0].key != d[i].key {
      FirstItemWins(d[1..], i - 1);
    }
  }

  /** The payload with the value under `k` replaced by the string `s`. */
  function SetText(d: seq<Item>, k: string, s: string): (r: seq<Item>)
    ensures |r| == |d|
    ensures forall i :: 0 <= i < |d| ==> r[i].key == d[i].key
    ensures forall i :: 0 <= i < |d| && d[i].key != k ==> r[i] == d[i]
    ensures forall i :: 0 <= i < |d| && d[i].key == k ==> r[i].text == Some(s)
  {
    seq(|d|, i requires 0 <= i < |d| => if d[i].key == k then Item(k, Some(s)) else d[i])
  }

  /**
   * Step 3 for one candidate: the header is re-checked, then only the
   * text field changes, to the text without its first line.
   */
  function Apply(d: seq<Item>, field: string, text: string): (r: Option<seq<Item>>)
    ensures r.Some? <==> RemoveHeader(text).Some?
    ensures r.Some? ==>
      (|r.value| == |d|
       && forall i :: 0 <= i < |d| ==> r.value[i].key == d[i].key && (d[i].key != field ==> r.value[i] == d[i]))
    ensures r.Some? && StrValue(d, field).Some? ==> StrValue(r.value, field) == RemoveHeader(text)
  {
    var t := RemoveHeader(text);
    if t.None? then None
    else
      SetTextRead(d, field, t.value);
      Some(SetText(d, field, t.value))
  }

  /**
   * A candidate of step 1 is always rewritten: step 3 re-checks the text
   * captured in step 1, so its "header no longer present" branch is never
   * taken.
   */
  lemma CandidateIsApplied(version: Option<string>, d: seq<Item>)
    requires DistinctKeys(d) && Classify(version, d).Candidate?
    ensures var c := Classify(version, d);
      Apply(d, c.field, c.text).Some? && StrValue(Apply(d, c.field, c.text).value, c.field) == RemoveHeader(c.text)
  {
  }

  lemma {:induction false} SetTextRead(d: seq<Item>, k: string, s: string)
    ensures StrValue(d, k).Some? ==> StrValue(SetText(d, k, s), k) == Some(s)
  {
    var r := SetText(d, k, s);
    if StrValue(d, k).Some? && d[0].key != k {
      assert r[1..] == SetText(d[1..], k, s);
      SetTextRead(d[1..], k, s);
    }
  }
}
