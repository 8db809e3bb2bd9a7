/**
 * The paragraph-preserving sentence splitter. Lines are stripped; blank
 * lines end a paragraph; the lines of a paragraph are joined with one space
 * and paragraphs with a blank line. Each paragraph is then normalised and
 * cut into sentences, and an empty string marks every paragraph break. The
 * sentence segmenter is a parameter: for a non-empty text it returns
 * consecutive spans that cover the text from its first character to its
 * last, as the segmenter's sentences cover every token of a document.
 */
module SentenceSplit {
  import opened PyStr
  import Whitespace
  import Chunk

  // ---------------------------------------------------------------------
  // `_normalize_lines`

  /** `[line.strip() for line in text.splitlines()]`. */
  function StrippedLines(text: string): (r: seq<string>)
    ensures |r| == |SplitLines(text)|
    ensures forall k :: 0 <= k < |r| ==> IsStripped(r[k]) && NoLineBreak(r[k])
  {
    var lines := SplitLines(text);
    forall k | 0 <= k < |lines|
      ensures NoLineBreak(Strip(lines[k]))
    {
      StripNoLineBreak(lines[k]);
    }
    seq(|lines|, k requires 0 <= k < |lines| => Strip(lines[k]))
  }

  /**
   * The loop of `_normalize_lines` from line `lines[0]` on, with `cur` the
   * paragraph collected so far: an empty line closes a non-empty paragraph,
   * any other line joins it, and a paragraph still open at the end is kept.
   * Every paragraph is non-empty, and together the paragraphs are the
   * non-empty lines in order.
   */
  function BlocksFrom(lines: seq<string>, cur: seq<string>): (r: seq<seq<string>>)
    requires AllNonEmpty(cur)
    ensures forall k :: 0 <= k < |r| ==> |r[k]| > 0 && AllNonEmpty(r[k])
    ensures Flatten(r) == cur + KeepNonEmpty(lines)
    decreases |lines|
  {
    if |lines| == 0 then
      if |cur| > 0 then [cur] else []
    else if lines[0] == "" then
      var closed := if |cur| > 0 then [cur] else [];
      var rest := BlocksFrom(lines[1..], []);
      FlattenAppend(closed, rest);
      closed + rest
    else
      var rest := BlocksFrom(lines[1..], cur + [lines[0]]);
      assert cur + [lines[0]] + KeepNonEmpty(lines[1..]) == cur + KeepNonEmpty(lines);
      rest
  }

  /** The paragraphs of `text`, each joined with one space. */
  function Paragraphs(text: string): (r: seq<string>)
  {
    var blocks := BlocksFrom(StrippedLines(text), []);
    seq(|blocks|, k requires 0 <= k < |blocks| => Join(blocks[k], " "))
  }

  /** `_normalize_lines(text)`. */
  function NormalizeLines(text: string): string
  {
    Join(Paragraphs(text), "\n\n")
  }

  /** A normalised paragraph: one line that starts and ends with a non-space character. */
  predicate IsParagraph(p: string)
  {
    |p| > 0 && !IsSpace(p[0]) && !IsSpace(p[|p| - 1]) && NoLineBreak(p)
  }

  /** Every normalised paragraph is a single stripped, non-empty line. */
  lemma ParagraphsAreLines(text: string)
    ensures forall k :: 0 <= k < |Paragraphs(text)| ==> IsParagraph(Paragraphs(text)[k])
  {
    var lines := StrippedLines(text);
    var blocks := BlocksFrom(lines, []);
    var ps := Paragraphs(text);
    forall k | 0 <= k < |ps|
      ensures IsParagraph(ps[k])
    {
      var b := blocks[k];
      forall j | 0 <= j < |b|
        ensures IsStripped(b[j]) && NoLineBreak(b[j])
      {
        FlattenHolds(blocks, k, j);
        assert b[j] in lines;
      }
      JoinStartsWithFirst(b, " ");
      JoinEndsWithLast(b, " ");
      JoinNoLineBreak(b, " ");
    }
  }

  /** An element of a block is an element of the flattening. */
  lemma {:induction false} FlattenHolds<T>(xss: seq<seq<T>>, k: nat, j: nat)
    requires k < |xss| && j < |xss[k]|
    ensures xss[k][j] in Flatten(xss)
    decreases k
  {
    if k > 0 {
      FlattenHolds(xss[1..], k - 1, j);
    }
  }

  /** The paragraphs, together, hold the non-blank lines of the text, stripped and in order. */
  lemma ParagraphsKeepLines(text: string)
    ensures var blocks := BlocksFrom(StrippedLines(text), []);
      && |Paragraphs(text)| == |blocks|
      && Flatten(blocks) == KeepNonEmpty(StrippedLines(text))
      && (forall k :: 0 <= k < |blocks| ==> Paragraphs(text)[k] == Join(blocks[k], " "))
  {
  }

  /** Text whose every line is blank normalises to `""`, and only such text does. */
  lemma NormalizeBlank(text: string)
    ensures NormalizeLines(text) == "" <==> KeepNonEmpty(StrippedLines(text)) == []
  {
    var blocks := BlocksFrom(StrippedLines(text), []);
    var ps := Paragraphs(text);
    ParagraphsAreLines(text);
    if |blocks| > 0 {
      JoinStartsWithFirst(ps, "\n\n");
      assert |Flatten(blocks)| >= |blocks[0]|;
    }
  }

  /** Splitting the normalised text at blank lines gives the paragraphs back; blank text gives one empty piece. */
  lemma SplitNormalized(text: string)
    ensures var pieces := SplitOn(NormalizeLines(text), "\n\n");
      pieces == if |Paragraphs(text)| == 0 then [""] else Paragraphs(text)
  {
    var ps := Paragraphs(text);
    var sep := "\n\n";
    ParagraphsAreLines(text);
    if |ps| > 0 {
      forall k | 0 <= k < |ps|
        ensures HasNoChar(ps[k], sep[0])
      {
        assert IsLineBreak('\n');
      }
      SplitOnJoin(ps, sep);
    }
  }

  // ---------------------------------------------------------------------
  // Sentences

  /** The spans start at 0, follow one another without gap or overlap, each non-empty, and end at `n`. */
  predicate Covers(spans: seq<Chunk.Span>, n: int)
  {
    && Chunk.SpansWithin(spans, n)
    && (n > 0 ==> |spans| > 0 && spans[0].start == 0 && spans[|spans| - 1].end == n)
    && (forall k :: 0 <= k < |spans| ==> spans[k].start < spans[k].end)
    && (forall k :: 0 <= k < |spans| - 1 ==> spans[k].end == spans[k + 1].start)
  }

  /** The sentence segmenter. */
  type Segmenter = f: string -> seq<Chunk.Span> | forall t :: Covers(f(t), |t|)
    witness (t: string) => if |t| == 0 then [] else [Chunk.Span(0, |t|)]

  /** Some span holds character `i`. */
  lemma {:induction false} SpanHolding(spans: seq<Chunk.Span>, n: int, i: int, j: nat) returns (k: nat)
    requires Covers(spans, n) && 0 <= i < n
    requires j < |spans| && spans[j].start <= i
    ensures k < |spans| && spans[k].start <= i < spans[k].end
    decreases |spans| - j
  {
    if i < spans[j].end {
      k := j;
    } else {
      k := SpanHolding(spans, n, i, j + 1);
    }
  }

  /** The stripped, non-empty pieces the segmenter cuts from `q`. */
  function Pieces(q: string, segment: Segmenter): (r: seq<string>)
    ensures AllNonEmpty(r)
    ensures forall k :: 0 <= k < |r| ==> IsStripped(r[k])
  {
    var spans := segment(q);
    var pieces := seq(|spans|, k requires 0 <= k < |spans| => Strip(q[spans[k].start..spans[k].end]));
    KeepNonEmptyStripped(pieces);
    KeepNonEmpty(pieces)
  }

  /**
   * `_paragraph_to_sentences`: the paragraph is normalised inline, cut by
   * the segmenter, and each piece stripped; empty pieces are dropped.
   */
  function ParagraphSentences(p: string, segment: Segmenter): (r: seq<string>)
    ensures AllNonEmpty(r)
    ensures forall k :: 0 <= k < |r| ==> IsStripped(r[k])
  {
    Pieces(Whitespace.NormalizeInline(p), segment)
  }

  /** The inline normalisation keeps a leading non-space character. */
  lemma NormalizeKeepsStart(p: string)
    requires |p| > 0 && !IsSpace(p[0])
    ensures |Whitespace.NormalizeInline(p)| > 0 && !IsSpace(Whitespace.NormalizeInline(p)[0])
  {
    var a := Whitespace.ReplaceTabsAndNbsp(p);
    var b := Whitespace.CollapseSpaces(a);
    assert b[0] == p[0];
    StripEmptyIffBlank(b);
    StripAt(b, 0);
  }

  /** Text that starts with a non-space character has a piece that is not empty. */
  lemma PiecesNotEmpty(q: string, segment: Segmenter)
    requires |q| > 0 && !IsSpace(q[0])
    ensures |Pieces(q, segment)| > 0
  {
    var spans := segment(q);
    var k := SpanHolding(spans, |q|, 0, 0);
    var piece := q[spans[k].start..spans[k].end];
    assert piece[0] == q[0];
    StripEmptyIffBlank(piece);
    var pieces := seq(|spans|, j requires 0 <= j < |spans| => Strip(q[spans[j].start..spans[j].end]));
    KeepNonEmptyKeeps(pieces, k);
  }

  /** A paragraph that is not blank yields at least one sentence. */
  lemma ParagraphHasSentence(p: string, segment: Segmenter)
    requires |p| > 0 && !IsSpace(p[0])
    ensures |ParagraphSentences(p, segment)| > 0
  {
    NormalizeKeepsStart(p);
    PiecesNotEmpty(Whitespace.NormalizeInline(p), segment);
  }

  lemma NonBlankStrip(p: string)
    requires |p| > 0 && !IsSpace(p[0])
    ensures Strip(p) != ""
  {
    StripEmptyIffBlank(p);
  }

  /** The sentences of one paragraph, as a function. */
  function SentencesOf(segment: Segmenter): string -> seq<string>
  {
    p => ParagraphSentences(p, segment)
  }

  /**
   * The loop of `split_sentences`: a blank paragraph adds `""`, any other
   * its sentences and then `""`.
   */
  function Collect(paragraphs: seq<string>, sentences: string -> seq<string>): seq<string>
  {
    if |paragraphs| == 0 then []
    else
      (if Strip(paragraphs[0]) == "" then [""] else sentences(paragraphs[0]) + [""])
      + Collect(paragraphs[1..], sentences)
  }

  /** `split_sentences(text)`: the collected entries without a final `""`. */
  function SplitSentences(text: string, segment: Segmenter): seq<string>
  {
    SentencesOfCleaned(NormalizeLines(text), segment)
  }

  /** The body of `split_sentences` after `_normalize_lines`. */
  function SentencesOfCleaned(cleaned: string, segment: Segmenter): seq<string>
  {
    DropFinalEmpty(Collect(SplitOn(cleaned, "\n\n"), SentencesOf(segment)))
  }

  /** Lists one after another with `""` between two neighbours. */
  function Separated(lists: seq<seq<string>>): seq<string>
  {
    if |lists| == 0 then []
    else if |lists| == 1 then lists[0]
    else lists[0] + [""] + Separated(lists[1..])
  }

  /** The sentence lists of the paragraphs. */
  function SentenceLists(ps: seq<string>, sentences: string -> seq<string>): (r: seq<seq<string>>)
    ensures |r| == |ps|
    ensures forall k :: 0 <= k < |r| ==> r[k] == sentences(ps[k])
  {
    seq(|ps|, k requires 0 <= k < |ps| => sentences(ps[k]))
  }

  /** Over paragraphs that are not blank, the loop gives the separated sentence lists and one final `""`. */
  lemma {:induction false} CollectIsSeparated(ps: seq<string>, sentences: string -> seq<string>)
    requires |ps| > 0 && forall k :: 0 <= k < |ps| ==> Strip(ps[k]) != ""
    ensures Collect(ps, sentences) == Separated(SentenceLists(ps, sentences)) + [""]
    decreases |ps|
  {
    var lists := SentenceLists(ps, sentences);
    var head := sentences(ps[0]);
    assert Collect(ps, sentences) == (head + [""]) + Collect(ps[1..], sentences);
    if |ps| > 1 {
      CollectIsSeparated(ps[1..], sentences);
      assert SentenceLists(ps[1..], sentences) == lists[1..];
      var tail := Separated(lists[1..]);
      assert Separated(lists) == head + [""] + tail;
      AppendAssoc(head + [""], tail, [""]);
    } else {
      assert lists == [head];
    }
  }

  /**
   * `split_sentences` gives the sentences of each paragraph in order, with
   * one `""` between two paragraphs and none at either end.
   */
  lemma SplitSentencesAreSeparated(text: string, segment: Segmenter)
    ensures SplitSentences(text, segment) == Separated(SentenceLists(Paragraphs(text), SentencesOf(segment)))
  {
    ParagraphsAreLines(text);
    CleanedSentences(Paragraphs(text), segment);
  }

  /** The sentences of paragraphs joined by blank lines are their separated sentence lists. */
  lemma CleanedSentences(ps: seq<string>, segment: Segmenter)
    requires forall k :: 0 <= k < |ps| ==> IsParagraph(ps[k])
    ensures SentencesOfCleaned(Join(ps, "\n\n"), segment) == Separated(SentenceLists(ps, SentencesOf(segment)))
  {
    if |ps| > 0 {
      var sep := "\n\n";
      forall k | 0 <= k < |ps|
        ensures HasNoChar(ps[k], sep[0]) && Strip(ps[k]) != ""
      {
        assert IsLineBreak('\n');
        NonBlankStrip(ps[k]);
      }
      SplitOnJoin(ps, sep);
      CollectedParagraphs(ps, SentencesOf(segment));
    } else {
      CleanedBlank(segment);
    }
  }

  lemma CollectedParagraphs(ps: seq<string>, f: string -> seq<string>)
    requires |ps| > 0 && forall k :: 0 <= k < |ps| ==> Strip(ps[k]) != ""
    ensures DropFinalEmpty(Collect(ps, f)) == Separated(SentenceLists(ps, f))
  {
    var x := Separated(SentenceLists(ps, f));
    CollectIsSeparated(ps, f);
    DropLast(x, "");
  }

  lemma CleanedBlank(segment: Segmenter)
    ensures SentencesOfCleaned("", segment) == []
  {
    var f := SentencesOf(segment);
    assert SplitOn("", "\n\n") == [""];
    CollectOfBlank(f);
  }

  lemma CollectOfBlank(sentences: string -> seq<string>)
    ensures Collect([""], sentences) == [""]
  {
    StripOfStripped("");
    assert [""][1..] == [];
  }

  lemma DropLast<T>(x: seq<T>, e: T)
    ensures (x + [e])[..|x|] == x
  {
  }

  /** Every list holds at least one entry and none of its entries is empty. */
  predicate NonEmptyLists(lists: seq<seq<string>>)
  {
    forall k :: 0 <= k < |lists| ==> |lists[k]| > 0 && AllNonEmpty(lists[k])
  }

  /** `""` is never first or last and never next to another `""`: it only marks a break. */
  predicate BreaksBetween(r: seq<string>)
  {
    && (|r| > 0 ==> r[0] != "" && r[|r| - 1] != "")
    && (forall k :: 0 <= k < |r| && r[k] == "" ==> 0 < k < |r| - 1 && r[k - 1] != "" && r[k + 1] != "")
  }

  /** Separated non-empty lists put `""` only between two lists, and are empty only when there are none. */
  lemma {:induction false} SeparatedBreaks(lists: seq<seq<string>>)
    requires NonEmptyLists(lists)
    ensures |Separated(lists)| == 0 <==> |lists| == 0
    ensures BreaksBetween(Separated(lists))
    decreases |lists|
  {
    if |lists| > 1 {
      var head := lists[0];
      var rest := Separated(lists[1..]);
      SeparatedBreaks(lists[1..]);
      var r := head + [""] + rest;
      assert r == Separated(lists);
      forall k | 0 <= k < |r| && r[k] == ""
        ensures 0 < k < |r| - 1 && r[k - 1] != "" && r[k + 1] != ""
      {
        if k > |head| {
          assert r[k] == rest[k - |head| - 1];
        }
      }
    }
  }

  /** Without the breaks, separated lists are the lists' entries in order. */
  lemma {:induction false} SeparatedKeeps(lists: seq<seq<string>>)
    requires NonEmptyLists(lists)
    ensures KeepNonEmpty(Separated(lists)) == Flatten(lists)
    decreases |lists|
  {
    if |lists| == 1 {
      KeepAllNonEmpty(lists[0]);
      assert Flatten(lists) == lists[0] + Flatten(lists[1..]);
    } else if |lists| > 1 {
      var head := lists[0];
      var rest := Separated(lists[1..]);
      SeparatedKeeps(lists[1..]);
      KeepAllNonEmpty(head);
      KeepNonEmptyAppend(head, [""] + rest);
      KeepNonEmptyAppend([""], rest);
      assert head + [""] + rest == head + ([""] + rest);
    }
  }

  /**
   * The entries of `split_sentences`: no `""` at either end, never two
   * `""` in a row, and the non-empty entries are the paragraphs' sentences
   * in order. Text with no non-blank line gives `[]`.
   */
  lemma SplitSentencesShape(text: string, segment: Segmenter)
    ensures var r := SplitSentences(text, segment);
      var ps := Paragraphs(text);
      && (|r| == 0 <==> KeepNonEmpty(StrippedLines(text)) == [])
      && BreaksBetween(r)
      && KeepNonEmpty(r) == Flatten(SentenceLists(ps, SentencesOf(segment)))
  {
    var lists := SentenceLists(Paragraphs(text), SentencesOf(segment));
    SplitSentencesAreSeparated(text, segment);
    ParagraphsAreLines(text);
    SentenceListsNonEmpty(Paragraphs(text), segment);
    SeparatedBreaks(lists);
    SeparatedKeeps(lists);
    NoParagraphsIffBlank(text);
  }

  /** Every paragraph contributes at least one sentence, and no sentence is empty. */
  lemma SentenceListsNonEmpty(ps: seq<string>, segment: Segmenter)
    requires forall k :: 0 <= k < |ps| ==> IsParagraph(ps[k])
    ensures NonEmptyLists(SentenceLists(ps, SentencesOf(segment)))
  {
    var lists := SentenceLists(ps, SentencesOf(segment));
    forall k | 0 <= k < |lists|
      ensures |lists[k]| > 0
    {
      ParagraphHasSentence(ps[k], segment);
    }
  }

  /** There is no paragraph exactly when no line holds anything but whitespace. */
  lemma NoParagraphsIffBlank(text: string)
    ensures |Paragraphs(text)| == 0 <==> KeepNonEmpty(StrippedLines(text)) == []
  {
    ParagraphsKeepLines(text);
    var blocks := BlocksFrom(StrippedLines(text), []);
    if |blocks| > 0 {
      assert |Flatten(blocks)| >= |blocks[0]|;
    }
  }
}
