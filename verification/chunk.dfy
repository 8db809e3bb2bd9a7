/**
 * The carry-over chunker of the ingestion pipeline: text lines are split
 * into paragraphs, paragraphs into sentences that remember the line or
 * page references they came from, sentences are grouped into blocks, an
 * AI callback proposes chunk start lines for each block, every chunk but
 * the last is finalised and the last one is carried into the next block;
 * a remaining carry is flushed at the end.
 *
 * The sentencizer and the chunk callback are parameters. `splitlines_exact`
 * is taken to be `str.split("\n")`.
 */
module Chunk {
  import opened Wrappers
  import opened PyStr
  import opened Whitespace
  import opened Blocks

  /** A `(min, max)` reference range, or a `(start, end)` pair of 1-based sentence numbers. */
  datatype Range = Range(lo: int, hi: int)

  datatype SentenceWithRange = SentenceWithRange(text: string, range: Range)

  datatype ChunkWithRange = ChunkWithRange(text: string, range: Range)

  /** The lines of one paragraph and, when references are given, one reference per line. */
  datatype Paragraph = Paragraph(lines: seq<string>, refs: seq<int>)

  /** A sentence as the sentencizer reports it: character offsets into the paragraph text. */
  datatype Span = Span(start: int, end: int)

  /** The chunk callback's answer: 1-based start lines and one header per chunk. */
  datatype ChunkSchema = ChunkSchema(starts: seq<int>, headers: seq<string>)

  const Delimiter: SentenceWithRange := SentenceWithRange("", Range(0, 0))

  // ---------------------------------------------------------------------
  // Paragraphs
  // ---------------------------------------------------------------------

  predicate IsHeading(line: string) { StartsWith(line, "#") }

  predicate IsListItem(line: string) { StartsWith(line, "- ") }

  /** What every extracted paragraph satisfies. */
  predicate WellFormedParagraph(p: Paragraph, hasRefs: bool)
  {
    && |p.lines| > 0
    && (forall k :: 0 <= k < |p.lines| ==> p.lines[k] != "")
    && (forall k :: 1 <= k < |p.lines| ==> !IsListItem(p.lines[k]) && !IsHeading(p.lines[k]))
    && (IsHeading(p.lines[0]) ==> |p.lines| == 1)
    && (if hasRefs then |p.refs| == |p.lines| else p.refs == [])
  }

  /** The paragraph being collected: no heading (those are pushed at once). */
  predicate WellFormedOpen(cur: seq<string>, curRefs: seq<int>, hasRefs: bool)
  {
    && (forall k :: 0 <= k < |cur| ==> cur[k] != "" && !IsHeading(cur[k]))
    && (forall k :: 1 <= k < |cur| ==> !IsListItem(cur[k]))
    && (if hasRefs then |curRefs| == |cur| else curRefs == [])
  }

  /** Lines of all paragraphs, in order. */
  function AllLines(ps: seq<Paragraph>): seq<string>
  {
    if |ps| == 0 then [] else AllLines(ps[..|ps| - 1]) + ps[|ps| - 1].lines
  }

  /** References of all paragraphs, in order. */
  function AllRefs(ps: seq<Paragraph>): seq<int>
  {
    if |ps| == 0 then [] else AllRefs(ps[..|ps| - 1]) + ps[|ps| - 1].refs
  }

  /** Reference definition: the non-empty lines from index `i` on. */
  function NonEmptyLines(lines: seq<string>, i: nat): seq<string>
    requires i <= |lines|
    decreases |lines| - i
  {
    if i == |lines| then []
    else if lines[i] == "" then NonEmptyLines(lines, i + 1)
    else [lines[i]] + NonEmptyLines(lines, i + 1)
  }

  /** Reference definition: the references of the non-empty lines from index `i` on. */
  function NonEmptyRefs(lines: seq<string>, refs: seq<int>, i: nat): seq<int>
    requires i <= |lines| <= |refs|
    decreases |lines| - i
  {
    if i == |lines| then []
    else if lines[i] == "" then NonEmptyRefs(lines, refs, i + 1)
    else [refs[i]] + NonEmptyRefs(lines, refs, i + 1)
  }

  /** Loop state: the paragraphs pushed so far and the one being collected. */
  datatype ParaState = ParaState(done: seq<Paragraph>, cur: seq<string>, curRefs: seq<int>)

  /** Push the paragraph being collected, if it is non-empty. */
  function Flush(st: ParaState): (r: seq<Paragraph>)
  {
    if |st.cur| > 0 then st.done + [Paragraph(st.cur, st.curRefs)] else st.done
  }

  /** An empty line, a list item or a heading closes the paragraph being collected. */
  function BreakBefore(line: string, st: ParaState): ParaState
  {
    if line == "" || IsListItem(line) || IsHeading(line) then ParaState(Flush(st), [], []) else st
  }

  /**
   * Appends a non-empty line (and its reference, `ref` holding zero or one
   * element); a heading is pushed at once as a paragraph of its own.
   */
  function AddLine(line: string, ref: seq<int>, st: ParaState): ParaState
  {
    if line == "" then st
    else if IsHeading(line) then ParaState(st.done + [Paragraph(st.cur + [line], st.curRefs + ref)], [], [])
    else ParaState(st.done, st.cur + [line], st.curRefs + ref)
  }

  /** One iteration of the loop, for the line at index `i`. */
  function ParaStep(lines: seq<string>, refs: seq<int>, i: nat, st: ParaState): ParaState
    requires i < |lines|
    requires |refs| == 0 || |refs| >= |lines|
  {
    AddLine(lines[i], if |refs| > 0 then [refs[i]] else [], BreakBefore(lines[i], st))
  }

  /** The loop of `_extract_paragraphs_with_reference_ranges` from line `i` on. */
  function ParagraphsFrom(lines: seq<string>, refs: seq<int>, i: nat, st: ParaState): seq<Paragraph>
    requires i <= |lines|
    requires |refs| == 0 || |refs| >= |lines|
    decreases |lines| - i
  {
    if i == |lines| then Flush(st)
    else ParagraphsFrom(lines, refs, i + 1, ParaStep(lines, refs, i, st))
  }

  predicate AllWellFormed(ps: seq<Paragraph>, hasRefs: bool)
  {
    forall k :: 0 <= k < |ps| ==> WellFormedParagraph(ps[k], hasRefs)
  }

  predicate StateWellFormed(st: ParaState, hasRefs: bool)
  {
    && AllWellFormed(st.done, hasRefs)
    && WellFormedOpen(st.cur, st.curRefs, hasRefs)
  }

  lemma {:induction false} FlushWellFormed(st: ParaState, hasRefs: bool)
    requires StateWellFormed(st, hasRefs)
    ensures AllWellFormed(Flush(st), hasRefs)
  {
    if |st.cur| > 0 {
      assert WellFormedParagraph(Paragraph(st.cur, st.curRefs), hasRefs);
    }
  }

  lemma {:induction false} ParaStepWellFormed(lines: seq<string>, refs: seq<int>, i: nat, st: ParaState)
    requires i < |lines|
    requires |refs| == 0 || |refs| >= |lines|
    requires StateWellFormed(st, |refs| > 0)
    ensures StateWellFormed(ParaStep(lines, refs, i, st), |refs| > 0)
  {
    FlushWellFormed(st, |refs| > 0);
    var line := lines[i];
    var st1 := BreakBefore(line, st);
    assert StateWellFormed(st1, |refs| > 0);
    if line != "" && IsHeading(line) {
      var ref := if |refs| > 0 then [refs[i]] else [];
      assert st1.cur == [] && st1.curRefs == [];
      assert WellFormedParagraph(Paragraph(st1.cur + [line], st1.curRefs + ref), |refs| > 0);
    }
  }

  /** Every paragraph the loop pushes is well formed. */
  lemma {:induction false} ParagraphsFromWellFormed(lines: seq<string>, refs: seq<int>, i: nat, st: ParaState)
    requires i <= |lines|
    requires |refs| == 0 || |refs| >= |lines|
    requires StateWellFormed(st, |refs| > 0)
    ensures AllWellFormed(ParagraphsFrom(lines, refs, i, st), |refs| > 0)
    decreases |lines| - i
  {
    if i == |lines| {
      FlushWellFormed(st, |refs| > 0);
    } else {
      var st2 := ParaStep(lines, refs, i, st);
      ParaStepWellFormed(lines, refs, i, st);
      ParagraphsFromWellFormed(lines, refs, i + 1, st2);
    }
  }

  /** Lines held by a loop state: pushed paragraphs, then the open one. */
  function StateLines(st: ParaState): seq<string>
  {
    AllLines(st.done) + st.cur
  }

  function StateRefs(st: ParaState): seq<int>
  {
    AllRefs(st.done) + st.curRefs
  }

  lemma {:induction false} AppendParagraph(ps: seq<Paragraph>, p: Paragraph)
    ensures AllLines(ps + [p]) == AllLines(ps) + p.lines
    ensures AllRefs(ps + [p]) == AllRefs(ps) + p.refs
  {
    assert (ps + [p])[..|ps|] == ps;
  }

  lemma {:induction false} FlushContent(st: ParaState, hasRefs: bool)
    requires hasRefs ==> |st.curRefs| == |st.cur|
    ensures AllLines(Flush(st)) == StateLines(st)
    ensures hasRefs ==> AllRefs(Flush(st)) == StateRefs(st)
  {
    if |st.cur| > 0 {
      AppendParagraph(st.done, Paragraph(st.cur, st.curRefs));
    }
  }

  lemma {:induction false} BreakBeforeContent(line: string, st: ParaState, hasRefs: bool)
    requires hasRefs ==> |st.curRefs| == |st.cur|
    ensures StateLines(BreakBefore(line, st)) == StateLines(st)
    ensures hasRefs ==> StateRefs(BreakBefore(line, st)) == StateRefs(st)
    ensures hasRefs ==> |BreakBefore(line, st).curRefs| == |BreakBefore(line, st).cur|
  {
    FlushContent(st, hasRefs);
  }

  lemma {:induction false} AddLineContent(line: string, ref: seq<int>, st: ParaState)
    ensures StateLines(AddLine(line, ref, st)) == StateLines(st) + (if line == "" then [] else [line])
    ensures StateRefs(AddLine(line, ref, st)) == StateRefs(st) + (if line == "" then [] else ref)
    ensures |st.curRefs| == |st.cur| && |ref| == 1 ==> |AddLine(line, ref, st).curRefs| == |AddLine(line, ref, st).cur|
  {
    if line == "" {
      assert AddLine(line, ref, st) == st;
    } else if IsHeading(line) {
      var p := Paragraph(st.cur + [line], st.curRefs + ref);
      assert AddLine(line, ref, st) == ParaState(st.done + [p], [], []);
      AppendParagraph(st.done, p);
    } else {
      assert AddLine(line, ref, st) == ParaState(st.done, st.cur + [line], st.curRefs + ref);
    }
  }

  lemma {:induction false} ParaStepContent(lines: seq<string>, refs: seq<int>, i: nat, st: ParaState)
    requires i < |lines|
    requires |refs| == 0 || |refs| >= |lines|
    requires |refs| > 0 ==> |st.curRefs| == |st.cur|
    ensures |refs| > 0 ==> |ParaStep(lines, refs, i, st).curRefs| == |ParaStep(lines, refs, i, st).cur|
    ensures StateLines(ParaStep(lines, refs, i, st)) == StateLines(st) + (if lines[i] == "" then [] else [lines[i]])
    ensures |refs| > 0 ==> StateRefs(ParaStep(lines, refs, i, st)) == StateRefs(st) + (if lines[i] == "" then [] else [refs[i]])
  {
    var ref := if |refs| > 0 then [refs[i]] else [];
    BreakBeforeContent(lines[i], st, |refs| > 0);
    AddLineContent(lines[i], ref, BreakBefore(lines[i], st));
  }

  lemma Reassoc<T>(a: seq<T>, s: seq<T>, x: seq<T>, n: seq<T>)
    requires a == (s + x) + n
    ensures a == s + (x + n)
  {
  }

  /** The paragraphs hold exactly the non-empty lines, in order. */
  lemma {:induction false} ParagraphsFromLines(lines: seq<string>, refs: seq<int>, i: nat, st: ParaState)
    requires i <= |lines|
    requires |refs| == 0 || |refs| >= |lines|
    requires |refs| > 0 ==> |st.curRefs| == |st.cur|
    ensures AllLines(ParagraphsFrom(lines, refs, i, st)) == StateLines(st) + NonEmptyLines(lines, i)
    decreases |lines| - i
  {
    if i == |lines| {
      FlushContent(st, |refs| > 0);
    } else {
      var st2 := ParaStep(lines, refs, i, st);
      var rest := ParagraphsFrom(lines, refs, i + 1, st2);
      assert ParagraphsFrom(lines, refs, i, st) == rest;
      ParaStepContent(lines, refs, i, st);
      ParagraphsFromLines(lines, refs, i + 1, st2);
      var x := if lines[i] == "" then [] else [lines[i]];
      assert NonEmptyLines(lines, i) == x + NonEmptyLines(lines, i + 1);
      Reassoc(AllLines(rest), StateLines(st), x, NonEmptyLines(lines, i + 1));
    }
  }

  /** The paragraphs' references are those of the non-empty lines, in order. */
  lemma {:induction false} ParagraphsFromRefs(lines: seq<string>, refs: seq<int>, i: nat, st: ParaState)
    requires i <= |lines| <= |refs|
    requires |st.curRefs| == |st.cur|
    ensures AllRefs(ParagraphsFrom(lines, refs, i, st)) == StateRefs(st) + NonEmptyRefs(lines, refs, i)
    decreases |lines| - i
  {
    if i == |lines| {
      FlushContent(st, true);
    } else {
      var st2 := ParaStep(lines, refs, i, st);
      var rest := ParagraphsFrom(lines, refs, i + 1, st2);
      assert ParagraphsFrom(lines, refs, i, st) == rest;
      ParaStepContent(lines, refs, i, st);
      ParagraphsFromRefs(lines, refs, i + 1, st2);
      var x := if lines[i] == "" then [] else [refs[i]];
      assert NonEmptyRefs(lines, refs, i) == x + NonEmptyRefs(lines, refs, i + 1);
      Reassoc(AllRefs(rest), StateRefs(st), x, NonEmptyRefs(lines, refs, i + 1));
    }
  }

  /**
   * `_extract_paragraphs_with_reference_ranges(lines, refs)`: the reference
   * list is empty or covers every line (the code indexes it directly).
   */
  function ExtractParagraphs(lines: seq<string>, refs: seq<int>): (r: seq<Paragraph>)
    requires |refs| == 0 || |refs| >= |lines|
    ensures forall k :: 0 <= k < |r| ==> WellFormedParagraph(r[k], |refs| > 0)
    ensures AllLines(r) == NonEmptyLines(lines, 0)
    ensures |refs| > 0 ==> AllRefs(r) == NonEmptyRefs(lines, refs, 0)
  {
    var st := ParaState([], [], []);
    ParagraphsFromLines(lines, refs, 0, st);
    ParagraphsFromWellFormed(lines, refs, 0, st);
    var r := ParagraphsFrom(lines, refs, 0, st);
    if |refs| > 0 then
      ParagraphsFromRefs(lines, refs, 0, st);
      r
    else r
  }

  // ---------------------------------------------------------------------
  // Sentences
  // ---------------------------------------------------------------------

  predicate SpansWithin(spans: seq<Span>, n: int)
  {
    forall k :: 0 <= k < |spans| ==> 0 <= spans[k].start <= spans[k].end <= n
  }

  /** The sentencizer: ordered character spans, each inside the text it was given. */
  type Sentencizer = f: string -> seq<Span> | forall t :: SpansWithin(f(t), |t|)
    witness (t: string) => []

  /** Offsets of the normalised lines inside their `" "`-join. */
  function LineStarts(norm: seq<string>): (r: seq<int>)
    ensures |r| == if |norm| == 0 then 1 else |norm|
    ensures r[0] == 0
    decreases |norm|
  {
    if |norm| <= 1 then [0]
    else
      var p := LineStarts(norm[..|norm| - 1]);
      p + [p[|p| - 1] + |norm[|norm| - 2]| + 1]
  }

  /** Line `k + 1` starts one separator after the end of line `k`. */
  lemma {:induction false} LineStartsStep(norm: seq<string>, k: nat)
    requires k + 1 < |LineStarts(norm)|
    ensures LineStarts(norm)[k + 1] == LineStarts(norm)[k] + |norm[k]| + 1
    decreases |norm|
  {
    var init := norm[..|norm| - 1];
    var p := LineStarts(init);
    if k + 1 < |p| {
      LineStartsStep(init, k);
      assert init[k] == norm[k];
    }
  }

  /** `bisect.bisect_right(a, x)` for an ascending list: the number of leading entries at most `x`. */
  function BisectRight(a: seq<int>, x: int): (r: nat)
    ensures r <= |a|
    ensures forall k :: 0 <= k < r ==> a[k] <= x
    ensures r < |a| ==> a[r] > x
  {
    if |a| == 0 || a[0] > x then 0 else 1 + BisectRight(a[1..], x)
  }

  function NormalizedLines(lines: seq<string>): (r: seq<string>)
    ensures |r| == |lines|
    ensures forall k :: 0 <= k < |r| ==> r[k] == NormalizeInline(lines[k])
  {
    seq(|lines|, k requires 0 <= k < |lines| => NormalizeInline(lines[k]))
  }

  /** The text handed to the sentencizer for a paragraph. */
  function ParagraphText(p: Paragraph): string
  {
    Join(NormalizedLines(p.lines), " ")
  }

  /** Range of the references of lines `first..last` (inclusive), `(0, 0)` when there are none. */
  function SliceRange(refs: seq<int>, first: int, last: int): (r: Range)
    ensures r == Range(0, 0) || (r.lo in refs && r.hi in refs && r.lo <= r.hi)
  {
    var slice := PySlice(refs, first, last + 1);
    if |slice| > 0 then Range(MinOf(slice), MaxOf(slice)) else Range(0, 0)
  }

  /** One sentence of `_extract_paragraph_sentences_with_reference_ranges`. */
  function SentenceOf(p: Paragraph, text: string, starts: seq<int>, span: Span): (r: SentenceWithRange)
    requires |p.lines| > 0
    ensures r.range == Range(0, 0) || (r.range.lo in p.refs && r.range.hi in p.refs && r.range.lo <= r.range.hi)
    ensures |p.refs| == 0 ==> r.range == Range(0, 0)
    ensures IsStripped(r.text)
  {
    var sentenceText := Strip(PySlice(text, span.start, span.end));
    if sentenceText != "" && |p.refs| > 0 then
      var first := Min(BisectRight(starts, span.start) - 1, |p.lines| - 1);
      var last := Min(BisectRight(starts, span.end - 1) - 1, |p.lines| - 1);
      SentenceWithRange(sentenceText, SliceRange(p.refs, first, last))
    else
      SentenceWithRange(sentenceText, Range(0, 0))
  }

  function Min(a: int, b: int): int { if a <= b then a else b }

  /**
   * `_extract_paragraph_sentences_with_reference_ranges`: one entry per
   * span; a sentence's range is `(0, 0)` or the (min, max) of references of
   * the paragraph's lines it overlaps.
   */
  function ParagraphSentences(p: Paragraph, sentencize: Sentencizer): (r: seq<SentenceWithRange>)
    requires |p.lines| > 0
    ensures |r| == |sentencize(ParagraphText(p))|
    ensures forall k :: 0 <= k < |r| ==> IsStripped(r[k].text)
    ensures forall k :: 0 <= k < |r| ==>
      r[k].range == Range(0, 0) || (r[k].range.lo in p.refs && r[k].range.hi in p.refs && r[k].range.lo <= r[k].range.hi)
    ensures |p.refs| == 0 ==> forall k :: 0 <= k < |r| ==> r[k].range == Range(0, 0)
  {
    var text := ParagraphText(p);
    var starts := LineStarts(NormalizedLines(p.lines));
    var spans := sentencize(text);
    seq(|spans|, k requires 0 <= k < |spans| => SentenceOf(p, text, starts, spans[k]))
  }

  /**
   * `_extract_sentences_with_reference_ranges`: the sentences of every
   * paragraph, with a `("", (0, 0))` delimiter before every paragraph but
   * the first.
   */
  function ExtractSentences(ps: seq<Paragraph>, sentencize: Sentencizer): (r: seq<SentenceWithRange>)
    requires forall k :: 0 <= k < |ps| ==> |ps[k].lines| > 0
    decreases |ps|
  {
    if |ps| == 0 then []
    else if |ps| == 1 then ParagraphSentences(ps[0], sentencize)
    else ExtractSentences(ps[..|ps| - 1], sentencize) + [Delimiter] + ParagraphSentences(ps[|ps| - 1], sentencize)
  }

  /** The sentences of the first paragraph come first: there is no leading delimiter. */
  lemma {:induction false} ExtractSentencesStart(ps: seq<Paragraph>, sentencize: Sentencizer)
    requires |ps| > 0
    requires forall k :: 0 <= k < |ps| ==> |ps[k].lines| > 0
    ensures var first := ParagraphSentences(ps[0], sentencize);
      |first| <= |ExtractSentences(ps, sentencize)| && ExtractSentences(ps, sentencize)[..|first|] == first
    decreases |ps|
  {
    if |ps| > 1 {
      ExtractSentencesStart(ps[..|ps| - 1], sentencize);
    }
  }

  /** Exactly `|ps| - 1` delimiters are added to the paragraphs' own sentences. */
  lemma {:induction false} ExtractSentencesCount(ps: seq<Paragraph>, sentencize: Sentencizer)
    requires |ps| > 0
    requires forall k :: 0 <= k < |ps| ==> |ps[k].lines| > 0
    ensures |ExtractSentences(ps, sentencize)| == SentenceCount(ps, sentencize) + |ps| - 1
    decreases |ps|
  {
    if |ps| > 1 {
      ExtractSentencesCount(ps[..|ps| - 1], sentencize);
      assert ps[..|ps| - 1][..|ps| - 2] == ps[..|ps| - 2];
    }
  }

  function SentenceCount(ps: seq<Paragraph>, sentencize: Sentencizer): nat
    requires forall k :: 0 <= k < |ps| ==> |ps[k].lines| > 0
    decreases |ps|
  {
    if |ps| == 0 then 0
    else SentenceCount(ps[..|ps| - 1], sentencize) + |ParagraphSentences(ps[|ps| - 1], sentencize)|
  }

  /** A sentence range is `(0, 0)` or an ordered pair of references from `refs`. */
  predicate RangeWithin(r: Range, refs: seq<int>)
  {
    r == Range(0, 0) || (r.lo in refs && r.hi in refs && r.lo <= r.hi)
  }

  predicate AllRangesWithin(ss: seq<SentenceWithRange>, refs: seq<int>)
  {
    forall k :: 0 <= k < |ss| ==> RangeWithin(ss[k].range, refs)
  }

  lemma WithinAppend(ss: seq<SentenceWithRange>, tt: seq<SentenceWithRange>, a: seq<int>, b: seq<int>)
    requires AllRangesWithin(ss, a) && AllRangesWithin(tt, b)
    ensures AllRangesWithin(ss + [Delimiter] + tt, a + b)
  {
    var u := ss + [Delimiter] + tt;
    forall k | 0 <= k < |u|
      ensures RangeWithin(u[k].range, a + b)
    {
      if k < |ss| {
        assert u[k] == ss[k];
      } else if k > |ss| {
        assert u[k] == tt[k - |ss| - 1];
      }
    }
  }

  /** Every sentence range is `(0, 0)` or a (min, max) pair of the paragraphs' references. */
  lemma {:induction false} ExtractSentencesRanges(ps: seq<Paragraph>, sentencize: Sentencizer)
    requires forall k :: 0 <= k < |ps| ==> |ps[k].lines| > 0
    ensures AllRangesWithin(ExtractSentences(ps, sentencize), AllRefs(ps))
    decreases |ps|
  {
    if |ps| > 0 {
      var last := ps[|ps| - 1];
      var init := ps[..|ps| - 1];
      assert AllRefs(ps) == AllRefs(init) + last.refs;
      var s := ParagraphSentences(last, sentencize);
      assert AllRangesWithin(s, last.refs);
      if |ps| == 1 {
        assert AllRefs(init) == [];
        assert AllRefs(ps) == last.refs;
      } else {
        ExtractSentencesRanges(init, sentencize);
        WithinAppend(ExtractSentences(init, sentencize), s, AllRefs(init), last.refs);
      }
    }
  }

  /** `text_to_clean_lines`: the `\n`-separated lines, each stripped. */
  function CleanLines(text: string): (r: seq<string>)
    ensures forall k :: 0 <= k < |r| ==> IsStripped(r[k])
  {
    var lines := Split(text, '\n');
    seq(|lines|, k requires 0 <= k < |lines| => Strip(lines[k]))
  }

  /**
   * `get_sentences_with_reference_ranges(text, refs)`; the reference list
   * is empty or has an entry for every line.
   */
  function GetSentences(text: string, refs: seq<int>, sentencize: Sentencizer): (r: seq<SentenceWithRange>)
    requires |refs| == 0 || |refs| >= |CleanLines(text)|
    ensures AllRangesWithin(r, refs)
    ensures |refs| == 0 ==> forall k :: 0 <= k < |r| ==> r[k].range == Range(0, 0)
  {
    var ps := ExtractParagraphs(CleanLines(text), refs);
    GetSentencesRanges(text, refs, sentencize);
    ExtractSentences(ps, sentencize)
  }

  lemma GetSentencesRanges(text: string, refs: seq<int>, sentencize: Sentencizer)
    requires |refs| == 0 || |refs| >= |CleanLines(text)|
    ensures var r := ExtractSentences(ExtractParagraphs(CleanLines(text), refs), sentencize);
      AllRangesWithin(r, refs) && (|refs| == 0 ==> forall k :: 0 <= k < |r| ==> r[k].range == Range(0, 0))
  {
    var lines := CleanLines(text);
    var ps := ExtractParagraphs(lines, refs);
    var r := ExtractSentences(ps, sentencize);
    ExtractSentencesRanges(ps, sentencize);
    if |refs| == 0 {
      AllRefsEmpty(ps);
    } else {
      NonEmptyRefsIn(lines, refs, 0);
      forall k | 0 <= k < |r|
        ensures RangeWithin(r[k].range, refs)
      {
        assert RangeWithin(r[k].range, AllRefs(ps));
      }
    }
  }

  lemma {:induction false} NonEmptyRefsIn(lines: seq<string>, refs: seq<int>, i: nat)
    requires i <= |lines| <= |refs|
    ensures forall x :: x in NonEmptyRefs(lines, refs, i) ==> x in refs
    decreases |lines| - i
  {
    if i < |lines| {
      NonEmptyRefsIn(lines, refs, i + 1);
    }
  }

  lemma {:induction false} AllRefsEmpty(ps: seq<Paragraph>)
    requires forall k :: 0 <= k < |ps| ==> ps[k].refs == []
    ensures AllRefs(ps) == []
    decreases |ps|
  {
    if |ps| > 0 {
      AllRefsEmpty(ps[..|ps| - 1]);
    }
  }

  /** Empty or blank text yields no sentences. */
  lemma BlankTextHasNoSentences(text: string, sentencize: Sentencizer)
    requires forall i :: 0 <= i < |text| ==> IsSpace(text[i])
    ensures GetSentences(text, [], sentencize) == []
  {
    var lines := CleanLines(text);
    var raw := Split(text, '\n');
    forall k | 0 <= k < |raw|
      ensures lines[k] == ""
    {
      assert forall i :: 0 <= i < |raw[k]| ==> raw[k][i] in text by {
        SplitPiecesIn(text, '\n', k);
      }
      StripOfBlank(raw[k]);
    }
    assert NonEmptyLines(lines, 0) == [] by {
      NoNonEmptyLines(lines, 0);
    }
    var ps := ExtractParagraphs(lines, []);
    EmptyAllLines(ps);
  }

  lemma {:induction false} NoNonEmptyLines(lines: seq<string>, i: nat)
    requires i <= |lines|
    requires forall k :: 0 <= k < |lines| ==> lines[k] == ""
    ensures NonEmptyLines(lines, i) == []
    decreases |lines| - i
  {
    if i < |lines| {
      NoNonEmptyLines(lines, i + 1);
    }
  }

  /** Paragraphs are non-empty, so no lines means no paragraphs. */
  lemma EmptyAllLines(ps: seq<Paragraph>)
    requires forall k :: 0 <= k < |ps| ==> |ps[k].lines| > 0
    requires AllLines(ps) == []
    ensures ps == []
  {
  }

  // ---------------------------------------------------------------------
  // Chunking
  // ---------------------------------------------------------------------

  /** The chunk callback; as `AiManager.chunk` guarantees, one header per start line. */
  type ChunkCallback = f: seq<string> -> ChunkSchema | forall b :: |f(b).headers| == |f(b).starts|
    witness (b: seq<string>) => ChunkSchema([], [])

  /** `_chunk_start_to_ranges`: consecutive start lines, the last range ending after the block. */
  function ChunkStartToRanges(starts: seq<int>, total: int): (r: seq<Range>)
    ensures |r| == |starts|
    ensures forall i {:trigger r[i]} :: 0 <= i < |r| ==> r[i].lo == starts[i]
    ensures forall i {:trigger r[i]} :: 0 <= i < |r| - 1 ==> r[i].hi == starts[i + 1]
    ensures |r| > 0 ==> r[|r| - 1].hi == total + 1
  {
    var extended := starts + [total + 1];
    seq(|starts|, i requires 0 <= i < |starts| => Range(extended[i], extended[i + 1]))
  }

  /** Sentences `start..end - 1` (1-based, half open): the Python slice `s[start - 1:end - 1]`. */
  function SliceOf<T>(s: seq<T>, r: Range): seq<T>
  {
    PySlice(s, r.lo - 1, r.hi - 1)
  }

  function Slices<T>(s: seq<T>, rs: seq<Range>): (r: seq<seq<T>>)
    ensures |r| == |rs|
    ensures forall i :: 0 <= i < |rs| ==> r[i] == SliceOf(s, rs[i])
  {
    if |rs| == 0 then [] else [SliceOf(s, rs[0])] + Slices(s, rs[1..])
  }

  /** `_extract_chunks_and_carry`: every range but the last becomes a chunk, the last one the carry. */
  function ExtractChunksAndCarry(sentences: seq<string>, ranges: seq<Range>): (r: (seq<string>, Option<string>))
    ensures |ranges| == 0 ==> r == ([], None)
    ensures |ranges| > 0 ==> r.1 == Some(Join(SliceOf(sentences, ranges[|ranges| - 1]), "\n"))
    ensures |ranges| > 0 ==> |r.0| == |ranges| - 1
    ensures forall i :: 0 <= i < |r.0| ==> r.0[i] == Join(SliceOf(sentences, ranges[i]), "\n")
  {
    if |ranges| == 0 then ([], None)
    else if |ranges| == 1 then ([], Some(Join(SliceOf(sentences, ranges[0]), "\n")))
    else
      var main := ranges[..|ranges| - 1];
      var chunks := seq(|main|, i requires 0 <= i < |main| => Join(SliceOf(sentences, main[i]), "\n"));
      (chunks, Some(Join(SliceOf(sentences, ranges[|ranges| - 1]), "\n")))
  }

  /** `_aggregate_ranges`: smallest positive minimum and largest positive maximum, 0 when there is none. */
  function AggregateRanges(rs: seq<Range>): (r: Range)
    ensures (forall k :: 0 <= k < |rs| ==> rs[k].lo <= 0) <==> r.lo == 0
    ensures r.lo != 0 ==> (r.lo > 0 && (exists k :: 0 <= k < |rs| && rs[k].lo == r.lo)
      && (forall k :: 0 <= k < |rs| && rs[k].lo > 0 ==> r.lo <= rs[k].lo))
    ensures (forall k :: 0 <= k < |rs| ==> rs[k].hi <= 0) <==> r.hi == 0
    ensures r.hi != 0 ==> (r.hi > 0 && (exists k :: 0 <= k < |rs| && rs[k].hi == r.hi)
      && (forall k :: 0 <= k < |rs| && rs[k].hi > 0 ==> rs[k].hi <= r.hi))
  {
    Range(MinPositiveLo(rs), MaxPositiveHi(rs))
  }

  function MinPositiveLo(rs: seq<Range>): (m: int)
    ensures m == 0 <==> forall k :: 0 <= k < |rs| ==> rs[k].lo <= 0
    ensures m != 0 ==> (m > 0 && (exists k :: 0 <= k < |rs| && rs[k].lo == m)
      && (forall k :: 0 <= k < |rs| && rs[k].lo > 0 ==> m <= rs[k].lo))
  {
    if |rs| == 0 then 0
    else
      var t := MinPositiveLo(rs[1..]);
      assert forall k :: 1 <= k < |rs| ==> rs[k] == rs[1..][k - 1];
      if rs[0].lo <= 0 then t
      else if t == 0 || rs[0].lo <= t then rs[0].lo
      else t
  }

  function MaxPositiveHi(rs: seq<Range>): (m: int)
    ensures m == 0 <==> forall k :: 0 <= k < |rs| ==> rs[k].hi <= 0
    ensures m != 0 ==> (m > 0 && (exists k :: 0 <= k < |rs| && rs[k].hi == m)
      && (forall k :: 0 <= k < |rs| && rs[k].hi > 0 ==> rs[k].hi <= m))
  {
    if |rs| == 0 then 0
    else
      var t := MaxPositiveHi(rs[1..]);
      assert forall k :: 1 <= k < |rs| ==> rs[k] == rs[1..][k - 1];
      if rs[0].hi <= 0 then t
      else if rs[0].hi >= t then rs[0].hi
      else t
  }

  lemma AggregateExample()
    ensures AggregateRanges([Range(1, 1), Range(0, 0), Range(2, 2)]) == Range(1, 2)
  {
    var rs := [Range(1, 1), Range(0, 0), Range(2, 2)];
    assert rs[1..] == [Range(0, 0), Range(2, 2)];
    assert rs[1..][1..] == [Range(2, 2)];
    assert rs[1..][1..][1..] == [];
  }

  /** `_format_chunk`: two header lines, a blank line, then the body. */
  function FormatChunk(fileLabel: string, header: string, body: string): string
  {
    Join(["# " + fileLabel, "# " + header, "", body], "\n")
  }

  /** The header lines of a formatted chunk read back, and the rest splits into the body's lines. */
  lemma FormatChunkLines(fileLabel: string, header: string, body: string)
    requires HasNoChar(fileLabel, '\n') && HasNoChar(header, '\n')
    ensures var lines := Split(FormatChunk(fileLabel, header, body), '\n');
      |lines| >= 4 && lines[..3] == ["# " + fileLabel, "# " + header, ""] && lines[3..] == Split(body, '\n')
  {
    var a := "# " + fileLabel;
    var b := "# " + header;
    var parts := [a, b, "", body];
    assert parts[1..] == [b, "", body];
    assert parts[1..][1..] == ["", body];
    assert parts[1..][1..][1..] == [body];
    assert Join(["", body], "\n") == "" + "\n" + body;
    assert Join([b, "", body], "\n") == b + "\n" + ("" + "\n" + body);
    assert FormatChunk(fileLabel, header, body) == a + "\n" + (b + "\n" + ("" + "\n" + body));
    assert HasNoChar(a, '\n') by {
      assert forall i :: 2 <= i < |a| ==> a[i] == fileLabel[i - 2];
    }
    assert HasNoChar(b, '\n') by {
      assert forall i :: 2 <= i < |b| ==> b[i] == header[i - 2];
    }
    SplitAfterPiece("", body, '\n');
    assert "" + "\n" + body == "" + ['\n'] + body;
    SplitAfterPiece(b, "" + "\n" + body, '\n');
    assert b + "\n" + ("" + "\n" + body) == b + ['\n'] + ("" + "\n" + body);
    SplitAfterPiece(a, b + "\n" + ("" + "\n" + body), '\n');
    assert a + "\n" + (b + "\n" + ("" + "\n" + body)) == a + ['\n'] + (b + "\n" + ("" + "\n" + body));
  }

  /** What is carried into the next block: text, its sentences' ranges, and its header. */
  datatype Carry = Carry(text: string, refs: seq<Range>, header: string)

  /** A finished chunk before formatting. */
  datatype Piece = Piece(header: string, body: string, refs: seq<Range>)

  function Texts(items: seq<SentenceWithRange>): (r: seq<string>)
    ensures |r| == |items|
    ensures forall k :: 0 <= k < |items| ==> r[k] == items[k].text
  {
    seq(|items|, k requires 0 <= k < |items| => items[k].text)
  }

  function RangesOf(items: seq<SentenceWithRange>): (r: seq<Range>)
    ensures |r| == |items|
    ensures forall k :: 0 <= k < |items| ==> r[k] == items[k].range
  {
    seq(|items|, k requires 0 <= k < |items| => items[k].range)
  }

  /** Result of one block: finished pieces, the new carry, and the lines sent to the callback. */
  datatype BlockOutcome = BlockOutcome(pieces: seq<Piece>, carry: Option<Carry>, request: seq<string>)

  /**
   * One iteration of the block loop of `get_chunks_with_reference_ranges`.
   * Only a non-empty carry text counts as a carry (an empty string is
   * falsy), so a carry, when present, is never empty.
   */
  function ProcessBlock(block: seq<SentenceWithRange>, carry: Option<Carry>, callback: ChunkCallback): (out: BlockOutcome)
    ensures out.carry.Some? ==> out.carry.value.text != ""
  {
    var lines := CarryLines(carry) + Texts(block);
    var (pieces, nextCarry) := CutBlock(lines, CarryRefs(carry) + RangesOf(block), callback(lines));
    BlockOutcome(pieces, nextCarry, lines)
  }

  /**
   * Cuts the lines sent to the callback at its start lines: every range
   * becomes a piece, except that a last range with non-empty text is
   * carried over instead.
   */
  function CutBlock(lines: seq<string>, lineRefs: seq<Range>, schema: ChunkSchema): (r: (seq<Piece>, Option<Carry>))
    requires |schema.headers| == |schema.starts|
    ensures r.1.Some? ==> r.1.value.text != ""
  {
    var ranges := ChunkStartToRanges(schema.starts, |lines|);
    var text := CarryText(lines, ranges);
    if text.Some? then
      var last := ranges[|ranges| - 1];
      (EmitPieces(lines, lineRefs, schema.headers, ranges[..|ranges| - 1]),
       Some(Carry(text.value, SliceOf(lineRefs, last), schema.headers[|schema.headers| - 1])))
    else
      (EmitPieces(lines, lineRefs, schema.headers, ranges), None)
  }

  /** The carry text left by `_extract_chunks_and_carry`, when it is truthy. */
  function CarryText(lines: seq<string>, ranges: seq<Range>): (r: Option<string>)
    ensures r.Some? ==> |ranges| > 0 && r.value != "" && r.value == Join(SliceOf(lines, ranges[|ranges| - 1]), "\n")
    ensures r.None? ==> |ranges| == 0 || Join(SliceOf(lines, ranges[|ranges| - 1]), "\n") == ""
  {
    var next := ExtractChunksAndCarry(lines, ranges).1;
    if next.Some? && next.value != "" then next else None
  }

  /** One piece per emitted range: its header, its sentences joined by newlines, their ranges. */
  function EmitPieces(lines: seq<string>, lineRefs: seq<Range>, headers: seq<string>, emitted: seq<Range>): (r: seq<Piece>)
    requires |emitted| <= |headers|
    ensures |r| == |emitted|
  {
    seq(|emitted|, i requires 0 <= i < |emitted| =>
      Piece(headers[i], Join(SliceOf(lines, emitted[i]), "\n"), SliceOf(lineRefs, emitted[i])))
  }

  /** Result of the block loop: every piece, the final carry, and every callback request. */
  datatype LoopOutcome = LoopOutcome(pieces: seq<Piece>, carry: Option<Carry>, requests: seq<seq<string>>)

  /** One pass of the loop body, for a given callback. */
  type BlockStep = (seq<SentenceWithRange>, Option<Carry>) -> BlockOutcome

  function StepOf(callback: ChunkCallback): BlockStep
  {
    (block, carry) => ProcessBlock(block, carry, callback)
  }

  /**
   * The block loop of `get_chunks_with_reference_ranges`, which runs
   * `step` (in the program, `StepOf(callback)`) on each block in turn,
   * threading the carry through.
   */
  function ChunkLoop(blocks: seq<seq<SentenceWithRange>>, carry: Option<Carry>, step: BlockStep): (out: LoopOutcome)
    ensures |out.requests| == |blocks|
    decreases |blocks|
  {
    if |blocks| == 0 then LoopOutcome([], carry, [])
    else
      var first := step(blocks[0], carry);
      var rest := ChunkLoop(blocks[1..], first.carry, step);
      LoopOutcome(first.pieces + rest.pieces, rest.carry, [first.request] + rest.requests)
  }

  /** All pieces in output order: those of the loop, then the flushed final carry. */
  function ChunkPieces(items: seq<SentenceWithRange>, blockSize: nat, callback: ChunkCallback): seq<Piece>
    requires blockSize > 0
  {
    var out := ChunkLoop(GroupBlocks(items, blockSize), None, StepOf(callback));
    Flushed(out.pieces, out.carry)
  }

  /** After the loop a remaining carry becomes the last piece. */
  function Flushed(pieces: seq<Piece>, carry: Option<Carry>): seq<Piece>
  {
    match carry
    case None => pieces
    case Some(c) => pieces + [Piece(c.header, c.text, c.refs)]
  }

  /**
   * `get_chunks_with_reference_ranges(sentences, callback, block size,
   * file path)`, where `fileLabel` is `format_file(file_path)`: one
   * formatted chunk per piece, its range aggregated from the piece's
   * sentence ranges.
   */
  function GetChunks(items: seq<SentenceWithRange>, callback: ChunkCallback, blockSize: nat, fileLabel: string): (r: seq<ChunkWithRange>)
    requires blockSize > 0
    ensures |r| == |ChunkPieces(items, blockSize, callback)|
  {
    var ps := ChunkPieces(items, blockSize, callback);
    seq(|ps|, k requires 0 <= k < |ps| => ChunkWithRange(FormatChunk(fileLabel, ps[k].header, ps[k].body), AggregateRanges(ps[k].refs)))
  }

  /** Blocks sent to the callback; none for an empty input. */
  function CallbackRequests(items: seq<SentenceWithRange>, blockSize: nat, callback: ChunkCallback): seq<seq<string>>
    requires blockSize > 0
  {
    ChunkLoop(GroupBlocks(items, blockSize), None, StepOf(callback)).requests
  }

  /** Empty input gives no chunks and never calls the callback. */
  lemma EmptyInputNoChunks(blockSize: nat, callback: ChunkCallback, fileLabel: string)
    requires blockSize > 0
    ensures GetChunks([], callback, blockSize, fileLabel) == []
    ensures CallbackRequests([], blockSize, callback) == []
  {
    var none: seq<SentenceWithRange> := [];
    assert GroupBlocks(none, blockSize) == [];
  }

  // ---------------------------------------------------------------------
  // The chunks partition the sentences
  // ---------------------------------------------------------------------

  /** Start lines the chunker can rely on: first line 1, strictly increasing, within the block. */
  predicate ValidStarts(starts: seq<int>, total: int)
  {
    && |starts| > 0
    && starts[0] == 1
    && (forall i, j :: 0 <= i < j < |starts| ==> starts[i] < starts[j])
    && starts[|starts| - 1] <= total
  }

  lemma {:induction false} ValidStartsBounds(starts: seq<int>, total: int, j: nat)
    requires ValidStarts(starts, total) && j < |starts|
    ensures 1 + j <= starts[j] <= total - (|starts| - 1 - j)
    decreases |starts| - j
  {
    if j < |starts| - 1 {
      ValidStartsBounds(starts, total, j + 1);
    }
    LowerBound(starts, j);
  }

  lemma {:induction false} LowerBound(starts: seq<int>, j: nat)
    requires |starts| > 0 && starts[0] == 1 && j < |starts|
    requires forall i, k :: 0 <= i < k < |starts| ==> starts[i] < starts[k]
    ensures starts[j] >= 1 + j
  {
    if j > 0 {
      LowerBound(starts, j - 1);
      assert starts[j - 1] < starts[j];
    }
  }

  /** Consecutive non-empty ranges, the last one ending one past `total`. */
  predicate Chain(rs: seq<Range>, total: int)
    decreases |rs|
  {
    && |rs| > 0
    && 1 <= rs[0].lo < rs[0].hi
    && if |rs| == 1 then rs[0].hi == total + 1 else rs[0].hi == rs[1].lo && Chain(rs[1..], total)
  }

  lemma {:induction false} ChainCovers<T>(s: seq<T>, rs: seq<Range>)
    requires Chain(rs, |s|)
    ensures rs[0].lo <= |s|
    ensures Flatten(Slices(s, rs)) == s[rs[0].lo - 1..]
    ensures forall i :: 0 <= i < |rs| ==> |SliceOf(s, rs[i])| >= 1
    decreases |rs|
  {
    var here := SliceOf(s, rs[0]);
    assert Slices(s, rs) == [here] + Slices(s, rs[1..]);
    assert ([here] + Slices(s, rs[1..]))[1..] == Slices(s, rs[1..]);
    if |rs| == 1 {
      assert here == s[rs[0].lo - 1..];
    } else {
      ChainCovers(s, rs[1..]);
      assert here == s[rs[0].lo - 1..rs[1].lo - 1];
      assert s[rs[0].lo - 1..] == here + s[rs[1].lo - 1..];
      assert forall i :: 1 <= i < |rs| ==> rs[i] == rs[1..][i - 1];
    }
  }

  lemma {:induction false} StartsChain(starts: seq<int>, total: int, j: nat)
    requires ValidStarts(starts, total) && j < |starts|
    ensures Chain(ChunkStartToRanges(starts, total)[j..], total)
    decreases |starts| - j
  {
    var rs := ChunkStartToRanges(starts, total);
    ValidStartsBounds(starts, total, j);
    if j < |starts| - 1 {
      StartsChain(starts, total, j + 1);
      assert rs[j..][1..] == rs[j + 1..];
      assert starts[j] < starts[j + 1];
    }
  }

  /** Valid start lines cut a block into non-empty consecutive slices covering all of it. */
  lemma SlicesPartition<T>(s: seq<T>, starts: seq<int>)
    requires ValidStarts(starts, |s|)
    ensures Flatten(Slices(s, ChunkStartToRanges(starts, |s|))) == s
    ensures forall i :: 0 <= i < |starts| ==> |SliceOf(s, ChunkStartToRanges(starts, |s|)[i])| >= 1
  {
    var rs := ChunkStartToRanges(starts, |s|);
    StartsChain(starts, |s|, 0);
    assert rs[0..] == rs;
    ChainCovers(s, rs);
  }

  /** The lines of each piece's body. */
  function BodyLines(ps: seq<Piece>): (r: seq<seq<string>>)
    ensures |r| == |ps|
    ensures forall k :: 0 <= k < |ps| ==> r[k] == Split(ps[k].body, '\n')
  {
    seq(|ps|, k requires 0 <= k < |ps| => Split(ps[k].body, '\n'))
  }

  /** The sentence ranges of each piece. */
  function RefLists(ps: seq<Piece>): (r: seq<seq<Range>>)
    ensures |r| == |ps|
    ensures forall k :: 0 <= k < |ps| ==> r[k] == ps[k].refs
  {
    seq(|ps|, k requires 0 <= k < |ps| => ps[k].refs)
  }

  /** A piece whose body lines and ranges correspond one to one. */
  predicate PieceAligned(p: Piece)
  {
    |Split(p.body, '\n')| == |p.refs|
  }

  predicate AllAligned(ps: seq<Piece>)
  {
    forall k :: 0 <= k < |ps| ==> PieceAligned(ps[k])
  }

  function CarryLines(c: Option<Carry>): seq<string>
  {
    if c.Some? then Split(c.value.text, '\n') else []
  }

  function CarryRefs(c: Option<Carry>): seq<Range>
  {
    if c.Some? then c.value.refs else []
  }

  predicate CarryAligned(c: Option<Carry>)
  {
    c.Some? ==> c.value.text != "" && |Split(c.value.text, '\n')| == |c.value.refs|
  }

  predicate NoNewlines(lines: seq<string>)
  {
    forall k :: 0 <= k < |lines| ==> HasNoChar(lines[k], '\n')
  }

  /** The callback behaves as the chunker expects on every non-empty block. */
  ghost predicate WellBehaved(callback: ChunkCallback)
  {
    forall b: seq<string> {:trigger callback(b)} :: |b| > 0 ==> ValidStarts(callback(b).starts, |b|)
  }

  lemma BodyLinesAppend(a: seq<Piece>, b: seq<Piece>)
    ensures BodyLines(a + b) == BodyLines(a) + BodyLines(b)
    ensures RefLists(a + b) == RefLists(a) + RefLists(b)
  {
  }

  lemma FlattenSingle<T>(x: seq<T>)
    ensures Flatten([x]) == x
  {
    assert [x][1..] == [];
  }

  lemma SliceLinesNoNewline(lines: seq<string>, r: Range)
    requires NoNewlines(lines)
    ensures NoNewlines(SliceOf(lines, r))
  {
    var sl := SliceOf(lines, r);
    forall k | 0 <= k < |sl|
      ensures HasNoChar(sl[k], '\n')
    {
      var i :| 0 <= i < |lines| && lines[i] == sl[k];
    }
  }

  lemma SliceOfSameLength<T, U>(a: seq<T>, b: seq<U>, r: Range)
    requires |a| == |b|
    ensures |SliceOf(a, r)| == |SliceOf(b, r)|
  {
  }

  lemma EmitPiecesCover(lines: seq<string>, lineRefs: seq<Range>, headers: seq<string>, emitted: seq<Range>)
    requires |emitted| <= |headers| && |lines| == |lineRefs| && NoNewlines(lines)
    requires forall i :: 0 <= i < |emitted| ==> |SliceOf(lines, emitted[i])| >= 1
    ensures BodyLines(EmitPieces(lines, lineRefs, headers, emitted)) == Slices(lines, emitted)
    ensures RefLists(EmitPieces(lines, lineRefs, headers, emitted)) == Slices(lineRefs, emitted)
    ensures AllAligned(EmitPieces(lines, lineRefs, headers, emitted))
  {
    var ps := EmitPieces(lines, lineRefs, headers, emitted);
    forall i | 0 <= i < |emitted|
      ensures BodyLines(ps)[i] == SliceOf(lines, emitted[i])
      ensures RefLists(ps)[i] == SliceOf(lineRefs, emitted[i])
      ensures PieceAligned(ps[i])
    {
      SliceLinesNoNewline(lines, emitted[i]);
      SplitJoin(SliceOf(lines, emitted[i]), '\n');
      SliceOfSameLength(lines, lineRefs, emitted[i]);
    }
  }

  lemma SlicesSnoc<T>(s: seq<T>, rs: seq<Range>, last: Range)
    ensures Flatten(Slices(s, rs + [last])) == Flatten(Slices(s, rs)) + SliceOf(s, last)
  {
    assert Slices(s, rs + [last]) == Slices(s, rs) + [SliceOf(s, last)];
    FlattenAppend(Slices(s, rs), [SliceOf(s, last)]);
    FlattenSingle(SliceOf(s, last));
  }

  lemma CarriedLinesNoNewline(block: seq<SentenceWithRange>, carry: Option<Carry>)
    requires NoNewlines(Texts(block))
    ensures NoNewlines(CarryLines(carry) + Texts(block))
  {
    var cl := CarryLines(carry);
    var lines := cl + Texts(block);
    assert forall k :: 0 <= k < |cl| ==> lines[k] == cl[k];
    assert forall k :: |cl| <= k < |lines| ==> lines[k] == Texts(block)[k - |cl|];
  }

  /** With no carry every range is emitted. */
  lemma CutWithoutCarry(lines: seq<string>, lineRefs: seq<Range>, headers: seq<string>, ranges: seq<Range>)
    requires |ranges| <= |headers| && |lines| == |lineRefs| && NoNewlines(lines)
    requires forall i :: 0 <= i < |ranges| ==> |SliceOf(lines, ranges[i])| >= 1
    requires Flatten(Slices(lines, ranges)) == lines && Flatten(Slices(lineRefs, ranges)) == lineRefs
    ensures Partitions(lines, lineRefs, EmitPieces(lines, lineRefs, headers, ranges), None)
  {
    var pieces := EmitPieces(lines, lineRefs, headers, ranges);
    EmitPiecesCover(lines, lineRefs, headers, ranges);
    assert Flatten(BodyLines(pieces)) + [] == Flatten(BodyLines(pieces));
    assert Flatten(RefLists(pieces)) + [] == Flatten(RefLists(pieces));
  }

  /** With a carry every range but the last is emitted, and the last one is carried. */
  lemma CutWithCarry(lines: seq<string>, lineRefs: seq<Range>, headers: seq<string>, ranges: seq<Range>, header: string)
    requires 0 < |ranges| <= |headers| && |lines| == |lineRefs| && NoNewlines(lines)
    requires forall i :: 0 <= i < |ranges| ==> |SliceOf(lines, ranges[i])| >= 1
    requires Flatten(Slices(lines, ranges)) == lines && Flatten(Slices(lineRefs, ranges)) == lineRefs
    requires Join(SliceOf(lines, ranges[|ranges| - 1]), "\n") != ""
    ensures var last := ranges[|ranges| - 1];
      Partitions(lines, lineRefs, EmitPieces(lines, lineRefs, headers, ranges[..|ranges| - 1]),
        Some(Carry(Join(SliceOf(lines, last), "\n"), SliceOf(lineRefs, last), header)))
  {
    var emitted := ranges[..|ranges| - 1];
    var last := ranges[|ranges| - 1];
    EmitPiecesCover(lines, lineRefs, headers, emitted);
    SlicesButLast(lines, ranges);
    SlicesButLast(lineRefs, ranges);
    SliceLinesNoNewline(lines, last);
    SplitJoin(SliceOf(lines, last), '\n');
    SliceOfSameLength(lines, lineRefs, last);
  }

  lemma SlicesButLast<T>(s: seq<T>, ranges: seq<Range>)
    requires |ranges| > 0 && Flatten(Slices(s, ranges)) == s
    ensures Flatten(Slices(s, ranges[..|ranges| - 1])) + SliceOf(s, ranges[|ranges| - 1]) == s
  {
    var rs := ranges[..|ranges| - 1];
    var last := ranges[|ranges| - 1];
    SlicesSnoc(s, rs, last);
    assert rs + [last] == ranges;
  }

  /**
   * `pieces` followed by `carry` hold exactly `lines`, and their ranges
   * exactly `lineRefs`, line for line.
   */
  predicate Partitions(lines: seq<string>, lineRefs: seq<Range>, pieces: seq<Piece>, carry: Option<Carry>)
  {
    && Flatten(BodyLines(pieces)) + CarryLines(carry) == lines
    && Flatten(RefLists(pieces)) + CarryRefs(carry) == lineRefs
    && AllAligned(pieces) && CarryAligned(carry)
  }

  /** Cutting a block at valid start lines loses and duplicates nothing. */
  lemma CutBlockCovers(lines: seq<string>, lineRefs: seq<Range>, schema: ChunkSchema)
    requires |schema.headers| == |schema.starts| && ValidStarts(schema.starts, |lines|)
    requires |lines| == |lineRefs| && NoNewlines(lines)
    ensures Partitions(lines, lineRefs, CutBlock(lines, lineRefs, schema).0, CutBlock(lines, lineRefs, schema).1)
  {
    if CarryText(lines, ChunkStartToRanges(schema.starts, |lines|)).Some? {
      CutBlockCoversCarried(lines, lineRefs, schema);
    } else {
      CutBlockCoversFlushed(lines, lineRefs, schema);
    }
  }

  lemma CutBlockCoversCarried(lines: seq<string>, lineRefs: seq<Range>, schema: ChunkSchema)
    requires |schema.headers| == |schema.starts| && ValidStarts(schema.starts, |lines|)
    requires |lines| == |lineRefs| && NoNewlines(lines)
    requires CarryText(lines, ChunkStartToRanges(schema.starts, |lines|)).Some?
    ensures Partitions(lines, lineRefs, CutBlock(lines, lineRefs, schema).0, CutBlock(lines, lineRefs, schema).1)
  {
    var ranges := ChunkStartToRanges(schema.starts, |lines|);
    SlicesPartition(lines, schema.starts);
    SlicesPartition(lineRefs, schema.starts);
    CutBlockCarried(lines, lineRefs, schema);
    CutWithCarry(lines, lineRefs, schema.headers, ranges, schema.headers[|schema.headers| - 1]);
  }

  lemma CutBlockCoversFlushed(lines: seq<string>, lineRefs: seq<Range>, schema: ChunkSchema)
    requires |schema.headers| == |schema.starts| && ValidStarts(schema.starts, |lines|)
    requires |lines| == |lineRefs| && NoNewlines(lines)
    requires CarryText(lines, ChunkStartToRanges(schema.starts, |lines|)).None?
    ensures Partitions(lines, lineRefs, CutBlock(lines, lineRefs, schema).0, CutBlock(lines, lineRefs, schema).1)
  {
    var ranges := ChunkStartToRanges(schema.starts, |lines|);
    SlicesPartition(lines, schema.starts);
    SlicesPartition(lineRefs, schema.starts);
    CutBlockFlushed(lines, lineRefs, schema);
    CutWithoutCarry(lines, lineRefs, schema.headers, ranges);
  }

  /** With a non-empty last range, `CutBlock` emits the others and carries that one. */
  lemma CutBlockCarried(lines: seq<string>, lineRefs: seq<Range>, schema: ChunkSchema)
    requires |schema.headers| == |schema.starts|
    requires CarryText(lines, ChunkStartToRanges(schema.starts, |lines|)).Some?
    ensures var ranges := ChunkStartToRanges(schema.starts, |lines|);
      var last := ranges[|ranges| - 1];
      CutBlock(lines, lineRefs, schema) ==
        (EmitPieces(lines, lineRefs, schema.headers, ranges[..|ranges| - 1]),
         Some(Carry(Join(SliceOf(lines, last), "\n"), SliceOf(lineRefs, last), schema.headers[|schema.headers| - 1])))
  {
  }

  /** Otherwise `CutBlock` emits every range and carries nothing. */
  lemma CutBlockFlushed(lines: seq<string>, lineRefs: seq<Range>, schema: ChunkSchema)
    requires |schema.headers| == |schema.starts|
    requires CarryText(lines, ChunkStartToRanges(schema.starts, |lines|)).None?
    ensures CutBlock(lines, lineRefs, schema) ==
      (EmitPieces(lines, lineRefs, schema.headers, ChunkStartToRanges(schema.starts, |lines|)), None)
  {
  }

  /**
   * One block: the pieces it emits followed by the carry it leaves are
   * exactly the carried lines followed by the block, for texts and ranges alike.
   */
  lemma ProcessBlockCovers(block: seq<SentenceWithRange>, carry: Option<Carry>, callback: ChunkCallback)
    requires CarryAligned(carry) && |block| > 0
    requires NoNewlines(Texts(block)) && WellBehaved(callback)
    ensures Covers(carry, ProcessBlock(block, carry, callback).pieces, ProcessBlock(block, carry, callback).carry,
      Texts(block), RangesOf(block))
  {
    var lines := CarryLines(carry) + Texts(block);
    CarriedLinesNoNewline(block, carry);
    assert ValidStarts(callback(lines).starts, |lines|);
    CutBlockCovers(lines, CarryRefs(carry) + RangesOf(block), callback(lines));
  }

  lemma TextsAppend(a: seq<SentenceWithRange>, b: seq<SentenceWithRange>)
    ensures Texts(a + b) == Texts(a) + Texts(b)
    ensures RangesOf(a + b) == RangesOf(a) + RangesOf(b)
  {
  }

  lemma NoNewlinesAppend(a: seq<string>, b: seq<string>)
    requires NoNewlines(a + b)
    ensures NoNewlines(a) && NoNewlines(b)
  {
    assert forall k :: 0 <= k < |a| ==> a[k] == (a + b)[k];
    assert forall k :: 0 <= k < |b| ==> b[k] == (a + b)[|a| + k];
  }

  /** Concatenation bookkeeping shared by texts and ranges. */
  lemma Chain2<T>(a: seq<T>, b: seq<T>, c0: seq<T>, c1: seq<T>, c2: seq<T>, t0: seq<T>, t1: seq<T>)
    requires a + c1 == c0 + t0 && b + c2 == c1 + t1
    ensures (a + b) + c2 == c0 + (t0 + t1)
  {
    calc {
      (a + b) + c2;
      a + (b + c2);
      a + (c1 + t1);
      (a + c1) + t1;
      (c0 + t0) + t1;
    }
  }

  /** Every block is non-empty and free of newlines. */
  predicate BlocksOk(blocks: seq<seq<SentenceWithRange>>)
    decreases |blocks|
  {
    |blocks| == 0 || (|blocks[0]| > 0 && NoNewlines(Texts(blocks[0])) && BlocksOk(blocks[1..]))
  }

  /** The texts of all blocks, in order. */
  function BlockTexts(blocks: seq<seq<SentenceWithRange>>): seq<string>
    decreases |blocks|
  {
    if |blocks| == 0 then [] else Texts(blocks[0]) + BlockTexts(blocks[1..])
  }

  /** The ranges of all blocks, in order. */
  function BlockRanges(blocks: seq<seq<SentenceWithRange>>): seq<Range>
    decreases |blocks|
  {
    if |blocks| == 0 then [] else RangesOf(blocks[0]) + BlockRanges(blocks[1..])
  }

  /**
   * `pieces` followed by the carry `after` hold exactly the carry `before`
   * followed by `texts` (and likewise for the ranges), line for line.
   */
  predicate Covers(before: Option<Carry>, pieces: seq<Piece>, after: Option<Carry>, texts: seq<string>, ranges: seq<Range>)
  {
    Partitions(CarryLines(before) + texts, CarryRefs(before) + ranges, pieces, after)
  }

  /** Two consecutive stretches of the loop compose. */
  lemma CoversCompose(c0: Option<Carry>, p1: seq<Piece>, c1: Option<Carry>, p2: seq<Piece>, c2: Option<Carry>,
                      t1: seq<string>, r1: seq<Range>, t2: seq<string>, r2: seq<Range>)
    requires Covers(c0, p1, c1, t1, r1) && Covers(c1, p2, c2, t2, r2)
    ensures Covers(c0, p1 + p2, c2, t1 + t2, r1 + r2)
  {
    BodyLinesAppend(p1, p2);
    FlattenAppend(BodyLines(p1), BodyLines(p2));
    FlattenAppend(RefLists(p1), RefLists(p2));
    Chain2(Flatten(BodyLines(p1)), Flatten(BodyLines(p2)), CarryLines(c0), CarryLines(c1), CarryLines(c2), t1, t2);
    Chain2(Flatten(RefLists(p1)), Flatten(RefLists(p2)), CarryRefs(c0), CarryRefs(c1), CarryRefs(c2), r1, r2);
  }

  /** A step that, on every non-empty newline-free block, loses and duplicates nothing. */
  ghost predicate StepCovers(step: BlockStep)
  {
    forall block, carry {:trigger step(block, carry)} ::
      CarryAligned(carry) && |block| > 0 && NoNewlines(Texts(block)) ==>
      Covers(carry, step(block, carry).pieces, step(block, carry).carry, Texts(block), RangesOf(block))
  }

  lemma StepOfCovers(callback: ChunkCallback)
    requires WellBehaved(callback)
    ensures StepCovers(StepOf(callback))
  {
    var step := StepOf(callback);
    forall block, carry | CarryAligned(carry) && |block| > 0 && NoNewlines(Texts(block))
      ensures Covers(carry, step(block, carry).pieces, step(block, carry).carry, Texts(block), RangesOf(block))
    {
      ProcessBlockCovers(block, carry, callback);
    }
  }

  /** The block loop: emitted pieces and final carry together hold the carried lines and every block. */
  lemma {:induction false} ChunkLoopCovers(blocks: seq<seq<SentenceWithRange>>, carry: Option<Carry>, step: BlockStep)
    requires CarryAligned(carry) && StepCovers(step) && BlocksOk(blocks)
    ensures Covers(carry, ChunkLoop(blocks, carry, step).pieces, ChunkLoop(blocks, carry, step).carry,
      BlockTexts(blocks), BlockRanges(blocks))
    decreases |blocks|
  {
    if |blocks| > 0 {
      var first := step(blocks[0], carry);
      var rest := ChunkLoop(blocks[1..], first.carry, step);
      ChunkLoopCovers(blocks[1..], first.carry, step);
      CoversCompose(carry, first.pieces, first.carry, rest.pieces, rest.carry,
        Texts(blocks[0]), RangesOf(blocks[0]), BlockTexts(blocks[1..]), BlockRanges(blocks[1..]));
    } else {
      assert Flatten(BodyLines([])) == [] && Flatten(RefLists([])) == [];
    }
  }

  /** The blocks of the input are non-empty, newline-free if the input is, and hold exactly the input. */
  lemma {:induction false} GroupedBlocksOk(items: seq<SentenceWithRange>, n: nat)
    requires n > 0 && NoNewlines(Texts(items))
    ensures BlocksOk(GroupBlocks(items, n))
    ensures BlockTexts(GroupBlocks(items, n)) == Texts(items)
    ensures BlockRanges(GroupBlocks(items, n)) == RangesOf(items)
    decreases |items|
  {
    var blocks := GroupBlocks(items, n);
    if 0 < |items| <= n {
      assert blocks == [items];
      assert blocks[1..] == [];
    } else if |items| > n {
      GroupBlocksSplit(items, n);
      assert blocks[1..] == GroupBlocks(items[n..], n);
      assert items == items[..n] + items[n..];
      TextsAppend(items[..n], items[n..]);
      NoNewlinesAppend(Texts(items[..n]), Texts(items[n..]));
      GroupedBlocksOk(items[n..], n);
    }
  }

  lemma FlushedCovers(pieces: seq<Piece>, carry: Option<Carry>, texts: seq<string>, ranges: seq<Range>)
    requires Covers(None, pieces, carry, texts, ranges)
    ensures Flatten(BodyLines(Flushed(pieces, carry))) == texts
    ensures Flatten(RefLists(Flushed(pieces, carry))) == ranges
    ensures AllAligned(Flushed(pieces, carry))
  {
    match carry
    case None =>
      assert Flatten(BodyLines(pieces)) + [] == Flatten(BodyLines(pieces));
      assert Flatten(RefLists(pieces)) + [] == Flatten(RefLists(pieces));
    case Some(c) =>
      var last := Piece(c.header, c.text, c.refs);
      BodyLinesAppend(pieces, [last]);
      FlattenAppend(BodyLines(pieces), BodyLines([last]));
      FlattenAppend(RefLists(pieces), RefLists([last]));
      FlattenSingle(Split(c.text, '\n'));
      FlattenSingle(c.refs);
  }

  /** With a well-behaved callback there are chunks exactly when there are sentences. */
  lemma ChunksIffSentences(items: seq<SentenceWithRange>, blockSize: nat, callback: ChunkCallback, fileLabel: string)
    requires blockSize > 0 && NoNewlines(Texts(items)) && WellBehaved(callback)
    ensures |GetChunks(items, callback, blockSize, fileLabel)| == 0 <==> |items| == 0
  {
    ChunksCoverSentences(items, blockSize, callback);
    if |items| == 0 {
      EmptyInputNoChunks(blockSize, callback, fileLabel);
    }
  }

  /**
   * Chunking neither loses nor duplicates a sentence: the bodies of the
   * chunks, line by line, are the input sentences in order, and each
   * chunk's ranges are those of exactly its own sentences.
   */
  lemma ChunksCoverSentences(items: seq<SentenceWithRange>, blockSize: nat, callback: ChunkCallback)
    requires blockSize > 0 && NoNewlines(Texts(items)) && WellBehaved(callback)
    ensures Flatten(BodyLines(ChunkPieces(items, blockSize, callback))) == Texts(items)
    ensures Flatten(RefLists(ChunkPieces(items, blockSize, callback))) == RangesOf(items)
    ensures AllAligned(ChunkPieces(items, blockSize, callback))
  {
    var blocks := GroupBlocks(items, blockSize);
    var out := ChunkLoop(blocks, None, StepOf(callback));
    GroupedBlocksOk(items, blockSize);
    StepOfCovers(callback);
    ChunkLoopCovers(blocks, None, StepOf(callback));
    FlushedCovers(out.pieces, out.carry, Texts(items), RangesOf(items));
  }
}
