/**
 * The older PDF loader (`archive_agent/loader/pdf.py`). It resolves the OCR
 * strategy as the current loader does but keeps no strategy per page, asks
 * one callback about every image, prefixes answers with `"[Image] "`, and
 * assembles the lines itself: image lines, page text, a blank line between
 * pages, one trailing blank line popped, and an assertion that the joined
 * text has one `splitlines()` line per page tag.
 */
module LegacyPdf {
  import opened Wrappers
  import PyStr
  import Fanout
  import PdfLoader

  /** The older `PdfPageContent`: text and image bytes, no strategy. */
  datatype PageContent = PageContent(text: string, images: seq<PdfLoader.ImageData>)

  datatype BuildError = AssertionError

  // ---------------------------------------------------------------------
  // `get_pdf_page_contents` and `extract_text_from_images_per_page`

  /** A page as the older loader keeps it: the same resolution, without the strategy. */
  function PageContentOf(raw: PdfLoader.RawPage, setting: PdfLoader.OcrStrategy, threshold: int): (r: PageContent)
    ensures var s := PdfLoader.ResolveStrategy(setting, threshold, PyStr.Strip(raw.text));
      && (s == PdfLoader.Strict ==> r == PageContent("", [raw.fullPage]))
      && (s == PdfLoader.Relaxed ==> r == PageContent(PyStr.Strip(raw.text), PdfLoader.LayoutImages(raw.blocks)))
  {
    var p := PdfLoader.PageContentOf(raw, setting, threshold);
    PageContent(p.text, p.images)
  }

  /**
   * What one image adds: `"[Image] "` before a non-empty answer; nothing
   * for an unreadable or tiny image, an empty or missing answer, or a
   * callback that raises.
   */
  function ImageText(img: PdfLoader.ImageData, callback: PdfLoader.ImageData -> Fanout.CallbackOutcome): (r: Option<string>)
    ensures r.Some? <==>
      img.Picture? && !PdfLoader.IsTiny(img) && callback(img).Returned? && callback(img).text.Some? && callback(img).text.value != ""
    ensures r.Some? ==> r.value == "[Image] " + callback(img).text.value
  {
    if img.Unreadable? || PdfLoader.IsTiny(img) then None
    else
      match callback(img)
      case Returned(Some(t)) => if t != "" then Some("[Image] " + t) else None
      case _ => None
  }

  function PageImageTexts(images: seq<PdfLoader.ImageData>, callback: PdfLoader.ImageData -> Fanout.CallbackOutcome): (r: seq<string>)
    ensures |r| <= |images|
    ensures forall k :: 0 <= k < |r| ==> PyStr.StartsWith(r[k], "[Image] ")
  {
    if |images| == 0 then []
    else
      var rest := PageImageTexts(images[1..], callback);
      match ImageText(images[0], callback)
      case Some(t) =>
        assert t[..8] == "[Image] ";
        [t] + rest
      case None => rest
  }

  /** One list of image texts per page. */
  function ImageTextsPerPage(pages: seq<PageContent>, callback: PdfLoader.ImageData -> Fanout.CallbackOutcome): (r: seq<seq<string>>)
    ensures |r| == |pages|
    ensures forall i :: 0 <= i < |pages| ==> r[i] == PageImageTexts(pages[i].images, callback)
  {
    seq(|pages|, i requires 0 <= i < |pages| => PageImageTexts(pages[i].images, callback))
  }

  // ---------------------------------------------------------------------
  // `build_document_text_from_pages`: the collected lines

  /** The lines of the image texts: each text's `splitlines()`, and a blank line after any that has lines. */
  function ImageLines(texts: seq<string>): (r: seq<string>)
    ensures PyStr.AllNoLineBreak(r)
  {
    if |texts| == 0 then []
    else
      var lines := PyStr.SplitLines(texts[0]);
      var block := if |lines| > 0 then lines + [""] else [];
      var r := block + ImageLines(texts[1..]);
      assert forall k :: 0 <= k < |block| ==> PyStr.NoLineBreak(block[k]);
      r
  }

  /** Page `k`'s lines: its image lines, its text's lines, and a separator unless it is the last page. */
  function PageLines(pages: seq<PageContent>, imageTexts: Option<seq<seq<string>>>, k: nat): (r: seq<string>)
    requires k < |pages|
    ensures PyStr.AllNoLineBreak(r)
  {
    var sep := if k < |pages| - 1 then [""] else [];
    var r := ImageLines(PdfLoader.TextsOf(imageTexts, k)) + PyStr.SplitLines(pages[k].text) + sep;
    assert forall i :: 0 <= i < |r| ==> PyStr.NoLineBreak(r[i]) by {
      var a := ImageLines(PdfLoader.TextsOf(imageTexts, k));
      var b := PyStr.SplitLines(pages[k].text);
      forall i | 0 <= i < |r| ensures PyStr.NoLineBreak(r[i]) {
        if i < |a| { assert r[i] == a[i]; }
        else if i < |a| + |b| { assert r[i] == b[i - |a|]; }
      }
    }
    r
  }

  /** `all_lines` after pages `k..`. */
  function LinesFrom(pages: seq<PageContent>, imageTexts: Option<seq<seq<string>>>, k: nat): (r: seq<string>)
    ensures PyStr.AllNoLineBreak(r)
    decreases |pages| - k
  {
    if k >= |pages| then []
    else
      var a := PageLines(pages, imageTexts, k);
      var b := LinesFrom(pages, imageTexts, k + 1);
      assert forall i :: 0 <= i < |a + b| ==> PyStr.NoLineBreak((a + b)[i]) by {
        forall i | 0 <= i < |a + b| ensures PyStr.NoLineBreak((a + b)[i]) {
          if i < |a| { assert (a + b)[i] == a[i]; } else { assert (a + b)[i] == b[i - |a|]; }
        }
      }
      a + b
  }

  /** `pages_per_line` after pages `k..`: page `i`'s lines are tagged `i + 1`. */
  function TagsFrom(pages: seq<PageContent>, imageTexts: Option<seq<seq<string>>>, k: nat): (r: seq<int>)
    ensures |r| == |LinesFrom(pages, imageTexts, k)|
    decreases |pages| - k
  {
    if k >= |pages| then []
    else PdfLoader.Repeat(k + 1, |PageLines(pages, imageTexts, k)|) + TagsFrom(pages, imageTexts, k + 1)
  }

  /** Tags run from `k + 1` to the page count, never going back. */
  lemma {:induction false} TagsFromSorted(pages: seq<PageContent>, imageTexts: Option<seq<seq<string>>>, k: nat)
    requires k <= |pages|
    ensures PdfLoader.NonDecreasing(TagsFrom(pages, imageTexts, k))
    ensures forall i :: 0 <= i < |TagsFrom(pages, imageTexts, k)| ==> k + 1 <= TagsFrom(pages, imageTexts, k)[i] <= |pages|
    decreases |pages| - k
  {
    if k < |pages| {
      TagsFromSorted(pages, imageTexts, k + 1);
    }
  }

  /** A page's separator is there exactly when a page follows. */
  lemma SeparatorBetweenPages(pages: seq<PageContent>, imageTexts: Option<seq<seq<string>>>, k: nat)
    requires k < |pages|
    ensures var lines := PageLines(pages, imageTexts, k);
      k < |pages| - 1 ==> |lines| > 0 && lines[|lines| - 1] == ""
    ensures k == |pages| - 1 ==>
      PageLines(pages, imageTexts, k) == ImageLines(PdfLoader.TextsOf(imageTexts, k)) + PyStr.SplitLines(pages[k].text)
  {
  }

  // ---------------------------------------------------------------------
  // The trailing pop and the final assertion

  /** `all_lines.pop()` and `pages_per_line.pop()` when the last line is blank. */
  function PopBlank(lines: seq<string>, tags: seq<int>): (r: (seq<string>, seq<int>))
    requires |lines| == |tags|
    ensures |r.0| == |r.1|
    ensures r.0 == PyStr.DropFinalEmpty(lines)
    ensures r.1 == tags[..|r.0|]
  {
    if |lines| > 0 && lines[|lines| - 1] == "" then (lines[..|lines| - 1], tags[..|tags| - 1]) else (lines, tags)
  }

  /** What follows the collection, as written: one blank line popped, then the line-count assertion. */
  function FinishAsWritten(lines: seq<string>, tags: seq<int>): (r: Result<Option<(string, seq<int>)>, BuildError>)
    requires |lines| == |tags|
    ensures r.Success? ==> (r.value.None? <==> |lines| == 0)
    ensures r.Success? && r.value.Some? ==> |PyStr.SplitLines(r.value.value.0)| == |r.value.value.1|
  {
    if |lines| == 0 then Success(None)
    else
      var (kept, keptTags) := PopBlank(lines, tags);
      var text := PyStr.Join(kept, "\n");
      if |PyStr.SplitLines(text)| != |keptTags| then Failure(AssertionError)
      else Success(Some((text, keptTags)))
  }

  /** The document as written. */
  function BuildAsWritten(pages: seq<PageContent>, imageTexts: Option<seq<seq<string>>>): (r: Result<Option<(string, seq<int>)>, BuildError>)
    ensures imageTexts.Some? && |imageTexts.value| != |pages| ==> r.Failure?
    ensures r.Success? ==> (r.value.None? <==> |LinesFrom(pages, imageTexts, 0)| == 0)
    ensures r.Success? && r.value.Some? ==> |PyStr.SplitLines(r.value.value.0)| == |r.value.value.1|
  {
    if imageTexts.Some? && |imageTexts.value| != |pages| then Failure(AssertionError)
    else FinishAsWritten(LinesFrom(pages, imageTexts, 0), TagsFrom(pages, imageTexts, 0))
  }

  /** Dropping a final blank line from lines without line breaks keeps them so. */
  lemma PrefixNoLineBreak(lines: seq<string>, n: nat)
    requires PyStr.AllNoLineBreak(lines) && n <= |lines|
    ensures PyStr.AllNoLineBreak(lines[..n])
  {
    assert forall k :: 0 <= k < n ==> lines[..n][k] == lines[k];
  }

  /**
   * The final assertion fails exactly when a blank line is still last after
   * the pop: the lines end in two blank lines, and `splitlines` does not
   * count the second.
   */
  lemma FinishFailsOnDoubleBlank(lines: seq<string>, tags: seq<int>)
    requires |lines| == |tags| && PyStr.AllNoLineBreak(lines)
    ensures FinishAsWritten(lines, tags).Failure? <==>
      |lines| >= 2 && lines[|lines| - 1] == "" && lines[|lines| - 2] == ""
  {
    if |lines| > 0 {
      var kept := PyStr.DropFinalEmpty(lines);
      PrefixNoLineBreak(lines, |kept|);
      PyStr.SplitLinesOfJoin(kept);
      if |lines| >= 2 && lines[|lines| - 1] == "" {
        assert kept[|kept| - 1] == lines[|lines| - 2];
      }
    }
  }

  /** The same for whole documents: collected lines ending in two blank lines trip the assertion. */
  lemma AsWrittenFailsOnDoubleBlank(pages: seq<PageContent>, imageTexts: Option<seq<seq<string>>>)
    requires imageTexts.None? || |imageTexts.value| == |pages|
    ensures var lines := LinesFrom(pages, imageTexts, 0);
      BuildAsWritten(pages, imageTexts).Failure? <==>
        |lines| >= 2 && lines[|lines| - 1] == "" && lines[|lines| - 2] == ""
  {
    FinishFailsOnDoubleBlank(LinesFrom(pages, imageTexts, 0), TagsFrom(pages, imageTexts, 0));
  }

  /** Three pages `"a"`, `""`, `""` without image texts: the lines are `a`, blank, blank, and the build fails. */
  lemma TrailingEmptyPagesFail(a: string)
    requires a == "a"
    ensures BuildAsWritten([PageContent(a, []), PageContent("", []), PageContent("", [])], None).Failure?
  {
    var pages := [PageContent(a, []), PageContent("", []), PageContent("", [])];
    assert PyStr.SplitLines(a) == [a];
    assert PageLines(pages, None, 0) == [a, ""];
    assert PageLines(pages, None, 1) == [""];
    assert PageLines(pages, None, 2) == [];
    assert LinesFrom(pages, None, 3) == [];
    assert LinesFrom(pages, None, 2) == [];
    assert LinesFrom(pages, None, 1) == [""];
    assert LinesFrom(pages, None, 0) == [a, ""] + [""];
    AsWrittenFailsOnDoubleBlank(pages, None);
  }

  // ---------------------------------------------------------------------
  // The build with every trailing blank line popped

  /** `while all_lines and all_lines[-1] == "": pop()` on both lists. */
  function PopBlanks(lines: seq<string>, tags: seq<int>): (r: (seq<string>, seq<int>))
    requires |lines| == |tags|
    ensures |r.0| == |r.1| && |r.0| <= |lines|
    ensures r.0 == lines[..|r.0|] && r.1 == tags[..|r.0|]
    ensures |r.0| == 0 || r.0[|r.0| - 1] != ""
    ensures forall k :: |r.0| <= k < |lines| ==> lines[k] == ""
    decreases |lines|
  {
    if |lines| > 0 && lines[|lines| - 1] == "" then
      var r := PopBlanks(lines[..|lines| - 1], tags[..|tags| - 1]);
      assert lines[..|lines| - 1][..|r.0|] == lines[..|r.0|];
      r
    else (lines, tags)
  }

  /**
   * The pop repeated until the last line is not blank: the line-count
   * assertion then holds for all lines without line breaks.
   */
  function Finish(lines: seq<string>, tags: seq<int>): (r: Result<Option<(string, seq<int>)>, BuildError>)
    requires |lines| == |tags| && PyStr.AllNoLineBreak(lines)
    ensures r.Success?
    ensures r.value.None? <==> |lines| == 0
    ensures r.value.Some? ==> |PyStr.SplitLines(r.value.value.0)| == |r.value.value.1|
    ensures r.value.Some? ==>
      var n := |r.value.value.1|;
      && n <= |lines| && r.value.value.0 == PyStr.Join(lines[..n], "\n") && r.value.value.1 == tags[..n]
      && (forall k :: n <= k < |lines| ==> lines[k] == "")
  {
    if |lines| == 0 then Success(None)
    else
      var (kept, keptTags) := PopBlanks(lines, tags);
      var text := PyStr.Join(kept, "\n");
      PrefixNoLineBreak(lines, |kept|);
      PyStr.SplitLinesOfJoin(kept);
      if |PyStr.SplitLines(text)| != |keptTags| then Failure(AssertionError)
      else Success(Some((text, keptTags)))
  }

  /** The corrected document: only image texts that do not match the pages fail. */
  function Build(pages: seq<PageContent>, imageTexts: Option<seq<seq<string>>>): (r: Result<Option<(string, seq<int>)>, BuildError>)
    ensures r.Failure? <==> imageTexts.Some? && |imageTexts.value| != |pages|
    ensures r.Success? ==> (r.value.None? <==> |LinesFrom(pages, imageTexts, 0)| == 0)
    ensures r.Success? && r.value.Some? ==> |PyStr.SplitLines(r.value.value.0)| == |r.value.value.1|
  {
    if imageTexts.Some? && |imageTexts.value| != |pages| then Failure(AssertionError)
    else Finish(LinesFrom(pages, imageTexts, 0), TagsFrom(pages, imageTexts, 0))
  }

  /**
   * The document keeps every collected line up to the trailing blanks, in
   * order, with its page tag; the tags are page numbers from 1 that never
   * go back.
   */
  lemma BuildKeepsLines(pages: seq<PageContent>, imageTexts: Option<seq<seq<string>>>)
    requires Build(pages, imageTexts).Success? && Build(pages, imageTexts).value.Some?
    ensures var lines := LinesFrom(pages, imageTexts, 0);
      var doc := Build(pages, imageTexts).value.value;
      var n := |doc.1|;
      && n <= |lines|
      && doc.0 == PyStr.Join(lines[..n], "\n")
      && doc.1 == TagsFrom(pages, imageTexts, 0)[..n]
      && (forall k :: n <= k < |lines| ==> lines[k] == "")
      && PdfLoader.NonDecreasing(doc.1)
      && (forall i :: 0 <= i < n ==> 1 <= doc.1[i] <= |pages|)
  {
    TagsFromSorted(pages, imageTexts, 0);
  }

  /** Where the older build succeeds, the corrected one gives the same document. */
  lemma BuildAgreesWhenAsWrittenSucceeds(pages: seq<PageContent>, imageTexts: Option<seq<seq<string>>>)
    requires BuildAsWritten(pages, imageTexts).Success?
    ensures Build(pages, imageTexts) == BuildAsWritten(pages, imageTexts)
  {
    var lines := LinesFrom(pages, imageTexts, 0);
    var tags := TagsFrom(pages, imageTexts, 0);
    FinishAgrees(lines, tags);
  }

  lemma FinishAgrees(lines: seq<string>, tags: seq<int>)
    requires |lines| == |tags| && PyStr.AllNoLineBreak(lines)
    requires FinishAsWritten(lines, tags).Success?
    ensures Finish(lines, tags) == FinishAsWritten(lines, tags)
  {
    FinishFailsOnDoubleBlank(lines, tags);
    if |lines| > 0 && lines[|lines| - 1] == "" {
      var p := PopBlanks(lines[..|lines| - 1], tags[..|tags| - 1]);
      assert p == (lines[..|lines| - 1], tags[..|tags| - 1]);
    }
  }

  /** Texts made by the image pass match the pages one to one. */
  lemma ExtractedTextsBuild(pages: seq<PageContent>, callback: PdfLoader.ImageData -> Fanout.CallbackOutcome)
    ensures Build(pages, Some(ImageTextsPerPage(pages, callback))).Success?
  {
  }
}
