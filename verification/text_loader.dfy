/**
 * The text loader's pure parts: the extension Pandoc is told about, the
 * formatting of answers about a binary document's embedded images, the
 * early exits before any vision request, and the assembly of the document
 * with three lines per image text after the converted text. Decoding,
 * Pandoc itself and ZIP extraction are left to the caller.
 */
module TextLoader {
  import opened Wrappers
  import PyStr
  import Extensions
  import Fanout
  import Builders
  import PdfLoader

  // ---------------------------------------------------------------------
  // The Pandoc format

  /** `os.path.splitext(path)[1].lower()`, with `.htm` replaced by `.html`, which Pandoc accepts. */
  function PandocExtension(path: string): (r: string)
    ensures r != ".htm"
    ensures PyStr.Lower(Extensions.SplitExt(path).1) == ".htm" ==> r == ".html"
    ensures PyStr.Lower(Extensions.SplitExt(path).1) != ".htm" ==> r == PyStr.Lower(Extensions.SplitExt(path).1)
  {
    var ext := PyStr.Lower(Extensions.SplitExt(path).1);
    if ext == ".htm" then ".html" else ext
  }

  /** `file_ext.lstrip(".")`: the extension without its dot. */
  function PandocFormat(path: string): (r: string)
  {
    var ext := PandocExtension(path);
    if |ext| > 0 && ext[0] == '.' then ext[1..] else ext
  }

  lemma LowerIsDot(c: char)
    ensures PyStr.LowerChar(c) == '.' <==> c == '.'
  {
  }

  /**
   * A name `stem.x` whose lower-cased form ends with an extension `e` (one
   * dot, at its start) has `x` as exactly that extension, up to case.
   */
  lemma ListedSuffixIsTheExtension(stem: string, x: string, e: string)
    requires PyStr.HasNoChar(x, '.')
    requires |e| > 0 && e[0] == '.' && PyStr.HasNoChar(e[1..], '.')
    requires PyStr.EndsWith(PyStr.Lower(stem + "." + x), e)
    ensures PyStr.Lower("." + x) == e
  {
    var p := stem + "." + x;
    var low := PyStr.Lower(p);
    var d := |p| - |e|;
    assert low[d] == e[0];
    LowerIsDot(p[d]);
    LowerIsDot(p[|stem|]);
    assert forall i :: |stem| < i < |p| ==> p[i] == x[i - |stem| - 1];
    assert forall j :: d < j < |p| ==> low[j] == e[1..][j - d - 1];
    assert low[|stem|] == '.';
    assert d == |stem|;
    var tail := PyStr.Lower("." + x);
    assert forall i :: 0 <= i < |tail| ==> tail[i] == low[|stem| + i];
    assert low[d..] == e;
  }

  /** Every extension in the list is one dot followed by no other dot. */
  predicate AllDotted(exts: seq<string>)
  {
    forall k :: 0 <= k < |exts| ==> |exts[k]| > 0 && exts[k][0] == '.' && PyStr.HasNoChar(exts[k][1..], '.')
  }

  /** A name `stem.x` has a listed extension exactly when `.x` is one, up to case. */
  lemma ListedExtensionOfName(stem: string, x: string, exts: seq<string>) returns (k: nat)
    requires PyStr.HasNoChar(x, '.') && AllDotted(exts)
    requires Extensions.HasExtension(stem + "." + x, exts)
    ensures k < |exts| && PyStr.Lower("." + x) == exts[k]
  {
    k :| 0 <= k < |exts| && PyStr.EndsWith(PyStr.Lower(stem + "." + x), exts[k]);
    ListedSuffixIsTheExtension(stem, x, exts[k]);
  }

  lemma AsciiDocumentExtensionsDotted()
    ensures AllDotted(Extensions.AsciiDocumentExtensions)
    ensures forall k :: 0 <= k < |Extensions.AsciiDocumentExtensions| ==>
      Extensions.AsciiDocumentExtensions[k] == ".html" || Extensions.AsciiDocumentExtensions[k] == ".htm"
  {
    var e := Extensions.AsciiDocumentExtensions;
    assert e[0] == ['.', 'h', 't', 'm', 'l'];
    assert e[1] == ['.', 'h', 't', 'm'];
  }

  /**
   * An HTML document named `stem.htm` or `stem.html`, in any case, is
   * converted as `html`.
   */
  lemma AsciiDocumentIsHtml(stem: string, x: string)
    requires |stem| > 0 && stem[|stem| - 1] != '.' && stem[|stem| - 1] != '/'
    requires PyStr.HasNoChar(x, '.') && PyStr.HasNoChar(x, '/')
    requires Extensions.IsAsciiDocument(stem + "." + x)
    ensures PandocExtension(stem + "." + x) == ".html"
    ensures PandocFormat(stem + "." + x) == "html"
  {
    var p := stem + "." + x;
    AsciiDocumentExtensionsDotted();
    var k := ListedExtensionOfName(stem, x, Extensions.AsciiDocumentExtensions);
    var ext := PyStr.Lower(Extensions.SplitExt(p).1);
    assert ext == Extensions.AsciiDocumentExtensions[k] by {
      Extensions.SplitExtOfName(stem, x);
    }
    var html := ".html";
    assert PandocExtension(p) == html;
    assert html[1..] == "html";
  }

  /** A hidden `.htm` file passes the extension test but has no extension for Pandoc. */
  lemma HiddenHtmHasNoFormat()
    ensures Extensions.IsAsciiDocument(".htm")
    ensures PandocFormat(".htm") == ""
  {
    var p := ".htm";
    assert PyStr.Lower(p[|p| - 4..]) == ".htm";
    Extensions.SuffixMatchesUpToCase(p, Extensions.AsciiDocumentExtensions, 1);
    Extensions.HiddenNameHasNoExtension("htm");
  }

  // ---------------------------------------------------------------------
  // Images of binary documents

  /** The formatter of every binary-document vision request. */
  function BinaryImageFormatter(answer: Option<string>): (r: string)
    ensures |r| >= 2 && r[0] == '[' && r[|r| - 1] == ']'
    ensures answer.Some? ==> r[1..|r| - 1] == answer.value
  {
    match answer
    case Some(t) => "[" + t + "]"
    case None => "[Unprocessable Image]"
  }

  /** An answer that reads `Unprocessable Image` cannot be told from no answer. */
  lemma FormatterConflates()
    ensures BinaryImageFormatter(Some("Unprocessable Image")) == BinaryImageFormatter(None)
  {
  }

  /**
   * `extract_binary_image_texts`: no images, or no callback, give `[]`
   * without a vision request; otherwise one request per image, each
   * formatted by `BinaryImageFormatter`, processed in request order.
   * `requested` counts the vision requests made.
   */
  method ExtractBinaryImageTexts<I>(images: seq<I>, callback: Option<I -> Fanout.CallbackOutcome>, order: seq<nat>,
                                    hasProgress: bool, taskId: Option<int>)
    returns (r: seq<string>, requested: nat)
    requires Fanout.IsCompletionOrder(order, |images|)
    ensures |images| == 0 || callback.None? ==> r == [] && requested == 0
    ensures |images| > 0 && callback.Some? ==> requested == |images| && |r| == |images|
    ensures |images| > 0 && callback.Some? ==> forall i :: 0 <= i < |images| ==>
      r[i] == Fanout.ProcessVision(Fanout.VisionRequest(callback.value(images[i]), BinaryImageFormatter, 0))
  {
    if |images| == 0 || callback.None? {
      return [], 0;
    }
    var f := callback.value;
    var requests := seq(|images|, i requires 0 <= i < |images| => Fanout.VisionRequest(f(images[i]), BinaryImageFormatter, 0));
    var advanced;
    r, advanced := Fanout.ProcessVisionRequests(requests, order, hasProgress, taskId);
    requested := |requests|;
  }

  /** Every formatted image text is bracketed, and a raised or refused request becomes the placeholder. */
  lemma BinaryImageTextShape(outcome: Fanout.CallbackOutcome)
    ensures var t := Fanout.ProcessVision(Fanout.VisionRequest(outcome, BinaryImageFormatter, 0));
      t[0] == '[' && t[|t| - 1] == ']'
    ensures outcome.Raised? || outcome == Fanout.Returned(None) ==>
      Fanout.ProcessVision(Fanout.VisionRequest(outcome, BinaryImageFormatter, 0)) == "[Unprocessable Image]"
  {
  }

  // ---------------------------------------------------------------------
  // `build_binary_document_with_images`

  /** `push()`, `push(text)`, `push()` per image text, numbered by the line count. */
  function PushImageTexts(b: Builders.LineBuilder, texts: seq<string>): (r: Builders.LineBuilder)
    requires Builders.LineValid(b)
    ensures Builders.LineValid(r)
    ensures r.lines == b.lines + PdfLoader.ImageLines(texts)
    ensures forall k :: 0 <= k < |b.numbers| ==> r.numbers[k] == b.numbers[k]
    ensures forall k :: |b.numbers| <= k < |r.numbers| ==> r.numbers[k] == k + 1
    decreases |texts|
  {
    if |texts| == 0 then b
    else
      var b1 := Builders.LinePush(Builders.LinePush(Builders.LinePush(b, "", None), texts[0], None), "", None);
      assert PdfLoader.ImageLines(texts) == ["", texts[0], ""] + PdfLoader.ImageLines(texts[1..]);
      PushImageTexts(b1, texts[1..])
  }

  /**
   * The binary document: the converted text's lines numbered from 1, then
   * a blank line, the text and a blank line per image text, the numbering
   * continuing.
   */
  function BuildBinaryDocument(text: string, imageTexts: seq<string>): (r: Option<(seq<string>, seq<int>)>)
    ensures r.Some?
    ensures r.value.0 == PyStr.Split(text, '\n') + PdfLoader.ImageLines(imageTexts)
    ensures |r.value.1| == |r.value.0|
    ensures forall k :: 0 <= k < |r.value.1| ==> r.value.1[k] == k + 1
  {
    var b := PushImageTexts(Builders.NewLineBuilder(Some(text)), imageTexts);
    Builders.LineContent(b)
  }

  /** Each image text adds exactly three lines, the text in the middle. */
  lemma ThreeLinesPerImage(text: string, imageTexts: seq<string>, k: nat)
    requires k < |imageTexts|
    ensures var doc := BuildBinaryDocument(text, imageTexts).value.0;
      var base := |PyStr.Split(text, '\n')|;
      && |doc| == base + 3 * |imageTexts|
      && doc[base + 3 * k] == "" && doc[base + 3 * k + 1] == imageTexts[k] && doc[base + 3 * k + 2] == ""
  {
    PdfLoader.ImageLinesAt(imageTexts, k);
  }
}
