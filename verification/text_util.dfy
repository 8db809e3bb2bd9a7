/**
 * The text utilities the chunker and the answer formatter share: cleaning a
 * list of sentences into stripped single lines, numbering lines for the
 * chunking prompt, and turning `file://` URIs of an answer into Markdown
 * links. Percent-decoding of a URI is a parameter.
 */
module TextUtil {
  import opened PyStr

  // ---------------------------------------------------------------------
  // `sanitize_sentences`

  /** A sanitized entry: not empty, no outer whitespace, a single line. */
  predicate IsClean(s: string)
  {
    s != "" && IsStripped(s) && NoLineBreak(s)
  }

  predicate AllClean(xs: seq<string>)
  {
    forall k :: 0 <= k < |xs| ==> IsClean(xs[k])
  }

  /** `[part.strip() for part in lines]`. */
  function StripEach(lines: seq<string>): (r: seq<string>)
    ensures |r| == |lines|
    ensures forall k :: 0 <= k < |r| ==> IsStripped(r[k])
  {
    seq(|lines|, k requires 0 <= k < |lines| => Strip(lines[k]))
  }

  /** The stripped, non-empty lines of one sentence, in order. */
  function SanitizedParts(sentence: string): (r: seq<string>)
    ensures AllClean(r)
  {
    var lines := SplitLines(sentence);
    var stripped := StripEach(lines);
    forall k | 0 <= k < |lines|
      ensures NoLineBreak(stripped[k])
    {
      StripNoLineBreak(lines[k]);
    }
    KeepNonEmptyStripped(stripped);
    KeepNonEmpty(stripped)
  }

  /** `sanitize_sentences`: every sentence's clean lines, sentence after sentence. */
  function Sanitize(sentences: seq<string>): (r: seq<string>)
    ensures AllClean(r)
  {
    if |sentences| == 0 then []
    else SanitizedParts(sentences[0]) + Sanitize(sentences[1..])
  }

  /** A clean sentence is its own only part. */
  lemma CleanPartIsItself(s: string)
    requires IsClean(s)
    ensures SanitizedParts(s) == [s]
  {
    SplitLinesNoBreak(s);
    StripOfStripped(s);
    assert StripEach([s]) == [s];
  }

  /** Sanitizing a list that is already clean changes nothing. */
  lemma {:induction false} SanitizeClean(xs: seq<string>)
    requires AllClean(xs)
    ensures Sanitize(xs) == xs
    decreases |xs|
  {
    if |xs| > 0 {
      CleanPartIsItself(xs[0]);
      SanitizeClean(xs[1..]);
      assert [xs[0]] + xs[1..] == xs;
    }
  }

  /** Sanitizing is idempotent. */
  lemma SanitizeIdempotent(xs: seq<string>)
    ensures Sanitize(Sanitize(xs)) == Sanitize(xs)
  {
    SanitizeClean(Sanitize(xs));
  }

  /** Sanitizing works sentence by sentence: it distributes over concatenation. */
  lemma {:induction false} SanitizeAppend(a: seq<string>, b: seq<string>)
    ensures Sanitize(a + b) == Sanitize(a) + Sanitize(b)
    decreases |a|
  {
    if |a| == 0 {
      assert a + b == b;
    } else {
      assert (a + b)[1..] == a[1..] + b;
      SanitizeAppend(a[1..], b);
      AppendAssoc(SanitizedParts(a[0]), Sanitize(a[1..]), Sanitize(b));
    }
  }

  /** The result is the flattening of each sentence's parts, in input order. */
  lemma {:induction false} SanitizeIsFlatten(xs: seq<string>)
    ensures Sanitize(xs) == Flatten(seq(|xs|, k requires 0 <= k < |xs| => SanitizedParts(xs[k])))
    decreases |xs|
  {
    var parts := seq(|xs|, k requires 0 <= k < |xs| => SanitizedParts(xs[k]));
    if |xs| > 0 {
      SanitizeIsFlatten(xs[1..]);
      assert parts[1..] == seq(|xs| - 1, k requires 0 <= k < |xs| - 1 => SanitizedParts(xs[1..][k]));
    }
  }

  lemma SanitizeOne(s: string)
    ensures Sanitize([s]) == KeepNonEmpty(StripEach(SplitLines(s)))
  {
    assert Sanitize([s]) == SanitizedParts(s) + Sanitize([]);
  }

  /** A final empty line adds nothing once empty entries are dropped. */
  lemma KeepStripDropFinal(lines: seq<string>)
    ensures KeepNonEmpty(StripEach(DropFinalEmpty(lines))) == KeepNonEmpty(StripEach(lines))
  {
    if |lines| > 0 && lines[|lines| - 1] == "" {
      var init := lines[..|lines| - 1];
      assert StripEach(lines) == StripEach(init) + [""] by {
        StripOfStripped("");
      }
      KeepNonEmptyAppend(StripEach(init), [""]);
    }
  }

  /**
   * A sentence made of several lines gives their stripped non-empty forms;
   * a final empty line, which `splitlines` drops, would be dropped anyway.
   */
  lemma SanitizeJoinedLines(lines: seq<string>)
    requires AllNoLineBreak(lines)
    ensures Sanitize([Join(lines, "\n")]) == KeepNonEmpty(StripEach(lines))
  {
    SanitizeOne(Join(lines, "\n"));
    SplitLinesOfJoin(lines);
    KeepStripDropFinal(lines);
  }

  // ---------------------------------------------------------------------
  // `prepend_line_numbers`

  /** `s.ljust(width)`, the `:<width` format: `s` padded on the right with spaces. */
  function LeftJustify(s: string, width: nat): (r: string)
    ensures |r| == if |s| >= width then |s| else width
    ensures r[..|s|] == s
    ensures forall i :: |s| <= i < |r| ==> r[i] == ' '
  {
    if |s| >= width then s else s + seq(width - |s|, _ => ' ')
  }

  /** `f"{n:<4}"`. */
  function LineNumberPrefix(n: nat): (r: string)
  {
    LeftJustify(NatToString(n), 4)
  }

  /**
   * `prepend_line_numbers` (both copies): entry `i` is the decimal form of
   * `i + 1`, padded with spaces to at least four characters, then sentence
   * `i` unchanged.
   */
  function PrependLineNumbers(sentences: seq<string>): (r: seq<string>)
    ensures |r| == |sentences|
    ensures forall i :: 0 <= i < |r| ==>
      var d := NatToString(i + 1);
      var w := if |d| >= 4 then |d| else 4;
      && |r[i]| == w + |sentences[i]|
      && r[i][..|d|] == d
      && (forall j :: |d| <= j < w ==> r[i][j] == ' ')
      && r[i][w..] == sentences[i]
  {
    seq(|sentences|, i requires 0 <= i < |sentences| => LineNumberPrefix(i + 1) + sentences[i])
  }

  /** The value of a string of decimal digits. */
  function DigitsValue(s: string): (n: nat)
    requires forall k :: 0 <= k < |s| ==> '0' <= s[k] <= '9'
  {
    if |s| == 0 then 0
    else DigitsValue(s[..|s| - 1]) * 10 + (s[|s| - 1] as int - '0' as int)
  }

  /** Reading the decimal form back gives the number: `int(str(n)) == n`. */
  lemma {:induction false} DigitsValueOfNatToString(n: nat)
    ensures DigitsValue(NatToString(n)) == n
  {
    if n >= 10 {
      var d := NatToString(n);
      assert d[..|d| - 1] == NatToString(n / 10);
      DigitsValueOfNatToString(n / 10);
    }
  }

  lemma DigitCountStep(n: nat)
    requires n >= 10
    ensures |NatToString(n)| == |NatToString(n / 10)| + 1
  {
  }

  /** A number below 1000 has at most three digits. */
  lemma ShortNumber(n: nat)
    requires n < 1000
    ensures |NatToString(n)| <= 3
  {
    if n >= 10 {
      DigitCountStep(n);
      if n / 10 >= 10 {
        DigitCountStep(n / 10);
      }
    }
  }

  /** A number of at least 1000 has at least four digits. */
  lemma LongNumber(n: nat)
    requires n >= 1000
    ensures |NatToString(n)| >= 4
  {
    DigitCountStep(n);
    DigitCountStep(n / 10);
    DigitCountStep(n / 10 / 10);
  }

  /**
   * Below line 1000 the number is followed by at least one space, so the
   * leading digits of an entry read back as its line number whatever the
   * sentence holds; the number column is exactly four characters wide.
   */
  lemma LineNumberReadsBack(sentences: seq<string>, i: nat)
    requires i < |sentences| && i + 1 < 1000
    ensures var r := PrependLineNumbers(sentences)[i];
      && |r| == 4 + |sentences[i]|
      && r[4..] == sentences[i]
      && DigitsValue(LeadingDigits(r)) == i + 1
  {
    var r := PrependLineNumbers(sentences)[i];
    var d := NatToString(i + 1);
    ShortNumber(i + 1);
    assert r == d + r[|d|..];
    LeadingDigitsOf(d, r[|d|..]);
    DigitsValueOfNatToString(i + 1);
  }

  /**
   * Removing the four-character number column of fewer than 1000 numbered
   * lines gives the sentences back.
   */
  lemma StripLineNumbers(sentences: seq<string>)
    requires |sentences| < 1000
    ensures var r := PrependLineNumbers(sentences);
      seq(|r|, i requires 0 <= i < |r| => PyStr.PySlice(r[i], 4, |r[i]|)) == sentences
  {
    var r := PrependLineNumbers(sentences);
    forall i | 0 <= i < |r|
      ensures PyStr.PySlice(r[i], 4, |r[i]|) == sentences[i]
    {
      LineNumberReadsBack(sentences, i);
    }
  }

  /** From line 1000 on no space separates the number from the sentence. */
  lemma WideNumberTouchesSentence(sentences: seq<string>, i: nat)
    requires i < |sentences| && i + 1 >= 1000
    ensures var r := PrependLineNumbers(sentences)[i];
      r == NatToString(i + 1) + sentences[i]
  {
    LongNumber(i + 1);
    var r := PrependLineNumbers(sentences)[i];
    var d := NatToString(i + 1);
    assert r == r[..|d|] + r[|d|..];
  }

  /** The longest prefix of decimal digits. */
  function LeadingDigits(s: string): (r: string)
    ensures |r| <= |s| && r == s[..|r|]
    ensures forall k :: 0 <= k < |r| ==> '0' <= r[k] <= '9'
    ensures |r| < |s| ==> !('0' <= s[|r|] <= '9')
  {
    if |s| == 0 || !('0' <= s[0] <= '9') then ""
    else [s[0]] + LeadingDigits(s[1..])
  }

  lemma {:induction false} LeadingDigitsOf(d: string, rest: string)
    requires forall k :: 0 <= k < |d| ==> '0' <= d[k] <= '9'
    requires |rest| == 0 || !('0' <= rest[0] <= '9')
    ensures LeadingDigits(d + rest) == d
    decreases |d|
  {
    if |d| == 0 {
      assert d + rest == rest;
    } else {
      assert (d + rest)[1..] == d[1..] + rest;
      LeadingDigitsOf(d[1..], rest);
      assert [d[0]] + d[1..] == d;
    }
  }

  // ---------------------------------------------------------------------
  // `replace_file_uris_with_markdown`

  const Scheme: string := "file://"

  /** Characters that end a URI: whitespace (`\s`), `]` and `)`. */
  predicate IsUriStop(c: char)
  {
    IsSpace(c) || c == ']' || c == ')'
  }

  /** Length of the run of `[^\s\])]` at the start of `s`. */
  function UriRunLength(s: string): (n: nat)
    ensures n <= |s|
    ensures forall i :: 0 <= i < n ==> !IsUriStop(s[i])
    ensures n < |s| ==> IsUriStop(s[n])
  {
    if |s| == 0 || IsUriStop(s[0]) then 0 else 1 + UriRunLength(s[1..])
  }

  /** `pattern` occurs in `s` at index `i`. */
  predicate OccursAt(s: string, pattern: string, i: nat)
  {
    i + |pattern| <= |s| && s[i..i + |pattern|] == pattern
  }

  lemma OccursShift(s: string, pattern: string, i: nat)
    requires |s| > 0
    ensures OccursAt(s[1..], pattern, i) == OccursAt(s, pattern, i + 1)
  {
    if i + |pattern| <= |s| - 1 {
      assert s[1..][i..i + |pattern|] == s[i + 1..i + 1 + |pattern|];
    }
  }

  /** The run stops exactly at the first stopping character. */
  lemma {:induction false} UriRunOf(x: string, rest: string)
    requires forall i :: 0 <= i < |x| ==> !IsUriStop(x[i])
    requires |rest| == 0 || IsUriStop(rest[0])
    ensures UriRunLength(x + rest) == |x|
    decreases |x|
  {
    if |x| == 0 {
      assert x + rest == rest;
    } else {
      assert (x + rest)[1..] == x[1..] + rest;
      UriRunOf(x[1..], rest);
    }
  }

  /** `s.replace(pattern, "")`: every non-overlapping occurrence, leftmost first, removed. */
  function RemoveAll(s: string, pattern: string): (r: string)
    requires |pattern| > 0
    ensures |r| <= |s|
    decreases |s|
  {
    if |s| < |pattern| then s
    else if OccursAt(s, pattern, 0) then RemoveAll(s[|pattern|..], pattern)
    else [s[0]] + RemoveAll(s[1..], pattern)
  }

  /** A string without the pattern is unchanged by removing it. */
  lemma {:induction false} RemoveAllAbsent(s: string, pattern: string)
    requires |pattern| > 0
    requires forall i :: 0 <= i < |s| ==> !OccursAt(s, pattern, i)
    ensures RemoveAll(s, pattern) == s
    decreases |s|
  {
    if |s| >= |pattern| {
      assert !OccursAt(s, pattern, 0);
      forall i | 0 <= i < |s| - 1
        ensures !OccursAt(s[1..], pattern, i)
      {
        OccursShift(s, pattern, i);
      }
      RemoveAllAbsent(s[1..], pattern);
      assert [s[0]] + s[1..] == s;
    }
  }

  /** The Markdown link for the URI `file://x`: the decoded path, then the URI. */
  function Link(x: string, unquote: string -> string): (r: string)
    ensures |r| >= 4 + |Scheme| + |x|
    ensures r[0] == '[' && r[|r| - 1] == ')'
    ensures r[|r| - 1 - |Scheme| - |x|..|r| - 1] == Scheme + x
  {
    var uri := Scheme + x;
    "[" + unquote(RemoveAll(uri, Scheme)) + "](" + uri + ")"
  }

  /** A match of `file://[^\s\])]+` starts at index `i` of `s`. */
  predicate MatchAt(s: string, i: nat)
  {
    |s| > i + |Scheme| && OccursAt(s, Scheme, i) && !IsUriStop(s[i + |Scheme|])
  }

  lemma MatchShift(s: string, i: nat)
    requires |s| > 0
    ensures MatchAt(s[1..], i) == MatchAt(s, i + 1)
  {
    OccursShift(s, Scheme, i);
    if |s| - 1 > i + |Scheme| {
      assert s[1..][i + |Scheme|] == s[i + 1 + |Scheme|];
    }
  }

  /**
   * `replace_file_uris_with_markdown`: each match of `file://[^\s\])]+`,
   * leftmost first and as long as possible, becomes its Markdown link; the
   * text between matches is copied.
   */
  function ReplaceFileUris(s: string, unquote: string -> string): (r: string)
    decreases |s|
  {
    if MatchAt(s, 0) then
      var tail := s[|Scheme|..];
      var n := UriRunLength(tail);
      Link(tail[..n], unquote) + ReplaceFileUris(tail[n..], unquote)
    else if |s| == 0 then ""
    else [s[0]] + ReplaceFileUris(s[1..], unquote)
  }

  /** No match starts at any of the first `a` positions of `s`. */
  predicate NoMatchBefore(s: string, a: nat)
  {
    forall i :: 0 <= i < a ==> !MatchAt(s, i)
  }

  /** Where no match starts, the first character is copied. */
  lemma ReplaceStep(s: string, unquote: string -> string)
    requires |s| > 0 && !MatchAt(s, 0)
    ensures ReplaceFileUris(s, unquote) == [s[0]] + ReplaceFileUris(s[1..], unquote)
  {
  }

  lemma NoMatchTail(a: string, t: string)
    requires |a| > 0 && NoMatchBefore(a + t, |a|)
    ensures !MatchAt(a + t, 0)
    ensures (a + t)[1..] == a[1..] + t && NoMatchBefore(a[1..] + t, |a| - 1)
  {
    var s := a + t;
    assert !MatchAt(s, 0);
    assert s[1..] == a[1..] + t;
    forall i | 0 <= i < |a| - 1
      ensures !MatchAt(s[1..], i)
    {
      MatchShift(s, i);
    }
  }

  /** Text before the first match is copied unchanged. */
  lemma {:induction false} CopiesUpToMatch(a: string, t: string, unquote: string -> string)
    requires NoMatchBefore(a + t, |a|)
    ensures ReplaceFileUris(a + t, unquote) == a + ReplaceFileUris(t, unquote)
    decreases |a|
  {
    if |a| == 0 {
      assert a + t == t;
    } else {
      NoMatchTail(a, t);
      CopiesUpToMatch(a[1..], t, unquote);
      ReplaceStep(a + t, unquote);
      assert [a[0]] + a[1..] == a;
    }
  }

  /** Text without a match, in particular text without `file://`, is unchanged. */
  lemma NoUriUnchanged(s: string, unquote: string -> string)
    requires NoMatchBefore(s, |s|)
    ensures ReplaceFileUris(s, unquote) == s
  {
    assert s + "" == s;
    CopiesUpToMatch(s, "", unquote);
  }

  /**
   * A maximal URI `file://x` (followed by the end or by a character that
   * stops it) becomes its link, and the rest is processed after it.
   */
  lemma UriBecomesLink(x: string, rest: string, unquote: string -> string)
    requires |x| > 0 && forall i :: 0 <= i < |x| ==> !IsUriStop(x[i])
    requires |rest| == 0 || IsUriStop(rest[0])
    ensures ReplaceFileUris(Scheme + x + rest, unquote) == Link(x, unquote) + ReplaceFileUris(rest, unquote)
  {
    var s := Scheme + x + rest;
    assert s[0..|Scheme|] == Scheme;
    var tail := s[|Scheme|..];
    assert tail == x + rest;
    assert tail[0] == x[0];
    UriRunOf(x, rest);
    assert tail[..|x|] == x && tail[|x|..] == rest;
  }

  /** The link shows the decoded path of `x` when `x` does not itself hold `file://`. */
  lemma LinkShowsPath(x: string, unquote: string -> string)
    requires forall i :: 0 <= i < |x| ==> !OccursAt(x, Scheme, i)
    ensures Link(x, unquote) == "[" + unquote(x) + "](" + Scheme + x + ")"
  {
    var uri := Scheme + x;
    assert uri[0..|Scheme|] == Scheme;
    assert uri[|Scheme|..] == x;
    RemoveAllAbsent(x, Scheme);
  }
}
