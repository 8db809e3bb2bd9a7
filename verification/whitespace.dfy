/**
 * Inline whitespace normalisation, written identically in the chunker and
 * in the sentence splitter: tabs and no-break spaces become spaces, runs of
 * spaces collapse to one, and the ends are stripped.
 */
module Whitespace {
  import opened PyStr

  predicate NoTabOrNbsp(s: string)
  {
    forall i :: 0 <= i < |s| ==> s[i] != '\t' && s[i] != '\U{A0}'
  }

  predicate NoDoubleSpace(s: string)
  {
    forall i :: 0 <= i < |s| - 1 ==> !(s[i] == ' ' && s[i + 1] == ' ')
  }

  /** The three properties of normalised inline text. */
  predicate IsNormalizedInline(s: string)
  {
    NoTabOrNbsp(s) && NoDoubleSpace(s) && IsStripped(s)
  }

  /** `text.replace("\t", " ").replace("\xa0", " ")`. */
  function ReplaceTabsAndNbsp(s: string): (r: string)
    ensures |r| == |s|
    ensures NoTabOrNbsp(r)
    ensures forall i :: 0 <= i < |s| ==> r[i] == (if s[i] == '\t' || s[i] == '\U{A0}' then ' ' else s[i])
  {
    if |s| == 0 then ""
    else [if s[0] == '\t' || s[0] == '\U{A0}' then ' ' else s[0]] + ReplaceTabsAndNbsp(s[1..])
  }

  /** `re.sub(r" {2,}", " ", text)`: every run of spaces becomes one space. */
  function CollapseSpaces(s: string): (r: string)
    ensures |r| <= |s|
    ensures |s| > 0 ==> |r| > 0 && r[0] == s[0]
    ensures forall i :: 0 <= i < |r| ==> r[i] in s
    ensures NoDoubleSpace(r)
  {
    if |s| == 0 then ""
    else if |s| >= 2 && s[0] == ' ' && s[1] == ' ' then CollapseSpaces(s[1..])
    else
      var t := CollapseSpaces(s[1..]);
      assert forall i :: 0 <= i < |t| ==> t[i] in s[1..];
      [s[0]] + t
  }

  /** `_normalize_inline_whitespace(text)`. */
  function NormalizeInline(s: string): (r: string)
    ensures IsNormalizedInline(r)
    ensures |r| <= |s|
  {
    var a := ReplaceTabsAndNbsp(s);
    var b := CollapseSpaces(a);
    CollapseKeepsNoTab(a);
    StripKeepsNormal(b);
    Strip(b)
  }

  lemma CollapseKeepsNoTab(s: string)
    requires NoTabOrNbsp(s)
    ensures NoTabOrNbsp(CollapseSpaces(s))
  {
    var r := CollapseSpaces(s);
    forall i | 0 <= i < |r|
      ensures r[i] != '\t' && r[i] != '\U{A0}'
    {
      assert r[i] in s;
    }
  }

  /** Stripping keeps the other two properties: it only cuts at the ends. */
  lemma StripKeepsNormal(s: string)
    requires NoTabOrNbsp(s) && NoDoubleSpace(s)
    ensures IsNormalizedInline(Strip(s))
  {
    var r := Strip(s);
    var o := StripOffset(s);
    forall i | 0 <= i < |r|
      ensures r[i] != '\t' && r[i] != '\U{A0}'
    {
      StripAt(s, i);
    }
    forall i | 0 <= i < |r| - 1
      ensures !(r[i] == ' ' && r[i + 1] == ' ')
    {
      StripAt(s, i);
      StripAt(s, i + 1);
    }
  }

  lemma ReplaceTabsAndNbspNoop(s: string)
    requires NoTabOrNbsp(s)
    ensures ReplaceTabsAndNbsp(s) == s
  {
  }

  lemma {:induction false} CollapseSpacesNoop(s: string)
    requires NoDoubleSpace(s)
    ensures CollapseSpaces(s) == s
  {
    if |s| > 0 {
      CollapseSpacesNoop(s[1..]);
      assert [s[0]] + s[1..] == s;
    }
  }

  /** Normalised text is a fixed point, and only normalised text is. */
  lemma NormalizeInlineFixpoint(s: string)
    ensures NormalizeInline(s) == s <==> IsNormalizedInline(s)
  {
    if IsNormalizedInline(s) {
      ReplaceTabsAndNbspNoop(s);
      CollapseSpacesNoop(s);
      StripOfStripped(s);
    }
  }

  /** Normalising twice is the same as normalising once. */
  lemma NormalizeInlineIdempotent(s: string)
    ensures NormalizeInline(NormalizeInline(s)) == NormalizeInline(s)
  {
    NormalizeInlineFixpoint(NormalizeInline(s));
  }

  /** Blank input (only whitespace) normalises to the empty string. */
  lemma NormalizeInlineBlank(s: string)
    requires forall i :: 0 <= i < |s| ==> IsSpace(s[i])
    ensures NormalizeInline(s) == ""
  {
    var a := ReplaceTabsAndNbsp(s);
    var b := CollapseSpaces(a);
    assert forall i :: 0 <= i < |a| ==> IsSpace(a[i]);
    assert forall i :: 0 <= i < |b| ==> IsSpace(b[i]) by {
      forall i | 0 <= i < |b| ensures IsSpace(b[i]) {
        assert b[i] in a;
      }
    }
    StripOfBlank(b);
  }
}
