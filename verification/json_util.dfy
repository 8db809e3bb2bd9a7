/**
 * The file name under which a question's answer is saved: characters a
 * file system rejects become `_`, whitespace runs become one `_`, and a
 * long question is cut and marked with `[...]` so that the whole name,
 * `.json` included, fits the length limit.
 *
 * Python's `\s` in a text pattern matches exactly the characters for which
 * `str.isspace()` holds, which is `PyStr.IsSpace`.
 */
module JsonUtil {
  import PyStr

  /** The characters the first substitution replaces: `< > : " / \ | ? *`. */
  predicate Forbidden(c: char)
  {
    c == '<' || c == '>' || c == ':' || c == '"' || c == '/' || c == '\\' || c == '|' || c == '?' || c == '*'
  }

  /** No forbidden character and no whitespace. */
  predicate CleanChars(s: string)
  {
    forall i :: 0 <= i < |s| ==> !Forbidden(s[i]) && !PyStr.IsSpace(s[i])
  }

  /** `re.sub(r'[<>:"/\\|?*]', '_', s)`. */
  function ReplaceForbidden(s: string): (r: string)
    ensures |r| == |s|
    ensures forall i :: 0 <= i < |s| ==> !Forbidden(r[i])
    ensures forall i :: 0 <= i < |s| && !Forbidden(s[i]) ==> r[i] == s[i]
    ensures forall i :: 0 <= i < |s| && Forbidden(s[i]) ==> r[i] == '_'
  {
    seq(|s|, i requires 0 <= i < |s| => if Forbidden(s[i]) then '_' else s[i])
  }

  /** The characters of `s` that are not whitespace, in order. */
  function Visible(s: string): (r: string)
    ensures |r| <= |s|
  {
    if |s| == 0 then ""
    else if PyStr.IsSpace(s[0]) then Visible(s[1..])
    else [s[0]] + Visible(s[1..])
  }

  /** The only whitespace is a single space between non-space characters or at an end. */
  predicate SingleSpaced(s: string)
  {
    (forall i :: 0 <= i < |s| && PyStr.IsSpace(s[i]) ==> s[i] == ' ')
    && (forall i :: 0 <= i < |s| - 1 ==> !(s[i] == ' ' && s[i + 1] == ' '))
  }

  /** `re.sub(r'\s+', ' ', s)`: every maximal run of whitespace becomes one space. */
  function CollapseWhitespace(s: string): (r: string)
    ensures SingleSpaced(r)
    ensures |s| > 0 ==> |r| > 0 && (r[0] == s[0] || (r[0] == ' ' && PyStr.IsSpace(s[0])))
    decreases |s|
  {
    if |s| == 0 then ""
    else if PyStr.IsSpace(s[0]) then
      var rest := PyStr.LStrip(s);
      " " + CollapseWhitespace(rest)
    else [s[0]] + CollapseWhitespace(s[1..])
  }

  /** `s.replace(' ', '_')`. */
  function SpacesToUnderscores(s: string): (r: string)
    ensures |r| == |s|
    ensures forall i :: 0 <= i < |s| ==> r[i] == (if s[i] == ' ' then '_' else s[i])
  {
    seq(|s|, i requires 0 <= i < |s| => if s[i] == ' ' then '_' else s[i])
  }

  /** The cleaned question before any truncation. */
  function CleanQuestion(question: string): (r: string)
  {
    SpacesToUnderscores(PyStr.Strip(CollapseWhitespace(ReplaceForbidden(question))))
  }

  /** The base name: the cleaned text, or its first `max_length - 10` characters (Python slice) and `[...]`. */
  function Cut(clean: string, maxLength: int): (r: string)
  {
    if |clean| > maxLength - 5 then PyStr.PySlice(clean, 0, maxLength - 10) + "[...]" else clean
  }

  /**
   * `generate_json_filename(question, max_length)`, as written: a clean
   * name with the `.json` extension that fits the limit from 10 upwards.
   */
  function GenerateJsonFilename(question: string, maxLength: int): (r: string)
    ensures PyStr.EndsWith(r, ".json")
    ensures CleanChars(r[..|r| - 5])
    ensures maxLength >= 10 ==> |r| <= maxLength
  {
    CleanQuestionChars(question);
    CutClean(CleanQuestion(question), maxLength);
    assert maxLength >= 10 ==> |Cut(CleanQuestion(question), maxLength)| <= maxLength - 5 by {
      if maxLength >= 10 { CutWithinLimit(CleanQuestion(question), maxLength); }
    }
    var r := Cut(CleanQuestion(question), maxLength) + ".json";
    assert r[..|r| - 5] == Cut(CleanQuestion(question), maxLength);
    r
  }

  /** The base name with the cut clamped at zero: below a limit of 10 only the marker is kept. */
  function CutClamped(clean: string, maxLength: int): (r: string)
  {
    if |clean| > maxLength - 5 then PyStr.PySlice(clean, 0, if maxLength >= 10 then maxLength - 10 else 0) + "[...]"
    else clean
  }

  /** `generate_json_filename` with the clamped cut. */
  function GenerateJsonFilenameClamped(question: string, maxLength: int): (r: string)
    ensures PyStr.EndsWith(r, ".json")
    ensures |r| <= if maxLength >= 10 then maxLength else 10
  {
    CutClamped(CleanQuestion(question), maxLength) + ".json"
  }

  // ---------------------------------------------------------------------
  // Cleaning
  // ---------------------------------------------------------------------

  lemma {:induction false} VisibleSkipsSpace(s: string)
    ensures Visible(PyStr.LStrip(s)) == Visible(s)
    decreases |s|
  {
    if |s| > 0 && PyStr.IsSpace(s[0]) {
      VisibleSkipsSpace(s[1..]);
    }
  }

  /** Collapsing changes whitespace only: the other characters stay, in order. */
  lemma {:induction false} CollapseKeepsVisible(s: string)
    ensures Visible(CollapseWhitespace(s)) == Visible(s)
    decreases |s|
  {
    if |s| > 0 {
      if PyStr.IsSpace(s[0]) {
        var rest := PyStr.LStrip(s);
        VisibleSkipsSpace(s);
        CollapseKeepsVisible(rest);
        assert Visible(" " + CollapseWhitespace(rest)) == Visible(CollapseWhitespace(rest));
      } else {
        CollapseKeepsVisible(s[1..]);
        assert ([s[0]] + CollapseWhitespace(s[1..]))[1..] == CollapseWhitespace(s[1..]);
      }
    }
  }

  /** Single-spaced text is left alone; with `SingleSpaced(r)` above, a fixpoint exactly when single-spaced. */
  lemma {:induction false} CollapseSingleSpaced(s: string)
    requires SingleSpaced(s)
    ensures CollapseWhitespace(s) == s
    decreases |s|
  {
    if |s| > 0 {
      assert SingleSpaced(s[1..]);
      if PyStr.IsSpace(s[0]) {
        assert |s| == 1 || !PyStr.IsSpace(s[1]);
        assert PyStr.LStrip(s[1..]) == s[1..];
        assert PyStr.LStrip(s) == s[1..];
      }
      CollapseSingleSpaced(s[1..]);
    }
  }

  lemma CollapseIdempotent(s: string)
    ensures CollapseWhitespace(CollapseWhitespace(s)) == CollapseWhitespace(s)
  {
    CollapseSingleSpaced(CollapseWhitespace(s));
  }

  /** Collapsing introduces only spaces, so it adds no forbidden character. */
  lemma {:induction false} CollapseAddsNoForbidden(s: string)
    requires forall i :: 0 <= i < |s| ==> !Forbidden(s[i])
    ensures forall i :: 0 <= i < |CollapseWhitespace(s)| ==> !Forbidden(CollapseWhitespace(s)[i])
    decreases |s|
  {
    if |s| > 0 {
      if PyStr.IsSpace(s[0]) {
        var rest := PyStr.LStrip(s);
        CollapseAddsNoForbidden(rest);
      } else {
        CollapseAddsNoForbidden(s[1..]);
      }
    }
  }

  /** The cleaned question has no forbidden character and no whitespace. */
  lemma CleanQuestionChars(question: string)
    ensures CleanChars(CleanQuestion(question))
  {
    var a := ReplaceForbidden(question);
    var b := CollapseWhitespace(a);
    CollapseAddsNoForbidden(a);
    var c := PyStr.Strip(b);
    forall i | 0 <= i < |c|
      ensures !Forbidden(c[i]) && (PyStr.IsSpace(c[i]) ==> c[i] == ' ')
    {
      PyStr.StripAt(b, i);
    }
  }

  /** A clean name is its own cleaning. */
  lemma CleanIsFixed(s: string)
    requires CleanChars(s)
    ensures CleanQuestion(s) == s
  {
    assert ReplaceForbidden(s) == s;
    CollapseSingleSpaced(s);
    PyStr.StripOfStripped(s);
    assert SpacesToUnderscores(s) == s;
  }

  /** Cleaning twice is cleaning once. */
  lemma CleanQuestionIdempotent(question: string)
    ensures CleanQuestion(CleanQuestion(question)) == CleanQuestion(question)
  {
    CleanQuestionChars(question);
    CleanIsFixed(CleanQuestion(question));
  }

  // ---------------------------------------------------------------------
  // Truncation
  // ---------------------------------------------------------------------

  /**
   * A cleaned text that fits `max_length - 5` is kept whole; a longer one
   * is cut to a prefix of itself followed by `[...]`.
   */
  lemma CutShape(clean: string, maxLength: int)
    ensures |clean| <= maxLength - 5 ==> Cut(clean, maxLength) == clean
    ensures |clean| > maxLength - 5 ==>
      var r := Cut(clean, maxLength);
      PyStr.EndsWith(r, "[...]") && r[..|r| - 5] <= clean
  {
    if |clean| > maxLength - 5 {
      var cut := PyStr.PySlice(clean, 0, maxLength - 10);
      var r := cut + "[...]";
      assert r[..|r| - 5] == cut;
    }
  }

  /** From a limit of 10 upwards the base name leaves room for `.json`. */
  lemma CutWithinLimit(clean: string, maxLength: int)
    requires maxLength >= 10
    ensures |Cut(clean, maxLength)| <= maxLength - 5
  {
  }

  lemma CutClean(clean: string, maxLength: int)
    requires CleanChars(clean)
    ensures CleanChars(Cut(clean, maxLength))
  {
    if |clean| > maxLength - 5 {
      var cut := PyStr.PySlice(clean, 0, maxLength - 10);
      assert forall i :: 0 <= i < |cut| ==> cut[i] in clean;
    }
  }

  /** The name fits a limit of 10 or more. */
  lemma FilenameWithinLimit(question: string, maxLength: int)
    requires maxLength >= 10
    ensures |GenerateJsonFilename(question, maxLength)| <= maxLength
  {
    CutWithinLimit(CleanQuestion(question), maxLength);
  }

  /** The base name (all but `.json`) has no forbidden character and no whitespace. */
  lemma FilenameBaseClean(question: string, maxLength: int)
    ensures var r := GenerateJsonFilename(question, maxLength);
      CleanChars(r[..|r| - 5])
  {
    CleanQuestionChars(question);
    CutClean(CleanQuestion(question), maxLength);
  }

  /**
   * Below a limit of 10 the cut `max_length - 10` is negative and Python
   * counts it from the end: with limit 7 a 12-character cleaned text keeps
   * 9 characters and the base name alone is 14 long.
   */
  lemma ShortLimitOverflows()
    ensures Cut("abcdefghijkl", 7) == "abcdefghi[...]"
    ensures |Cut("abcdefghijkl", 7)| + 5 == 19
  {
    var q := "abcdefghijkl";
    assert PyStr.PySlice(q, 0, -3) == q[..9];
  }

  /** A 12-letter question is already clean, so it reaches the overflow. */
  lemma ShortLimitQuestion()
    ensures |GenerateJsonFilename("abcdefghijkl", 7)| == 19
  {
    var q := "abcdefghijkl";
    assert CleanChars(q);
    CleanIsFixed(q);
    ShortLimitOverflows();
  }

  /** The clamped cut agrees with the source from a limit of 10 upwards. */
  lemma ClampedAgreesFromTen(clean: string, maxLength: int)
    requires maxLength >= 10
    ensures CutClamped(clean, maxLength) == Cut(clean, maxLength)
  {
  }
}
