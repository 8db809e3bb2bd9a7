/**
 * The PDF loader: how each page's OCR strategy is resolved, how image
 * answers are formatted, and how the pages' lines are assembled into a
 * document with a page tag on every line. Reading the PDF, rendering pages
 * and opening images are left to the caller: a page arrives as its raw
 * text, its layout blocks and its full-page rendering, and an image as its
 * size or as unreadable.
 */
module PdfLoader {
  import opened Wrappers
  import PyStr
  import Fanout
  import Builders

  const TinyImageWidthThreshold: int := 32
  const TinyImageHeightThreshold: int := 32

  datatype OcrStrategy = Auto | Strict | Relaxed

  /** An embedded or rendered image as PIL opens it, or bytes PIL refuses. */
  datatype ImageData = Unreadable | Picture(width: int, height: int, id: nat)

  /**
   * A layout block by its `"type"` entry; an image block carries its image
   * bytes, `None` when the entry is missing or empty.
   */
  datatype Block = TextBlock | ImageBlock(image: Option<ImageData>) | VectorBlock | OtherBlock

  /** A page as the PDF library reports it. */
  datatype RawPage = RawPage(text: string, blocks: seq<Block>, fullPage: ImageData)

  /** `PdfPageContent`, reduced to what later stages read. */
  datatype PageContent = PageContent(text: string, images: seq<ImageData>, strategy: OcrStrategy)

  // ---------------------------------------------------------------------
  // `get_pdf_page_content` and `get_pdf_page_contents`

  /** The image bytes of the image blocks that have any, in block order. */
  function LayoutImages(blocks: seq<Block>): (r: seq<ImageData>)
    ensures |r| <= |blocks|
    ensures forall x :: x in r <==> ImageBlock(Some(x)) in blocks
  {
    if |blocks| == 0 then []
    else
      var rest := LayoutImages(blocks[1..]);
      assert forall b :: b in blocks <==> b == blocks[0] || b in blocks[1..];
      match blocks[0]
      case ImageBlock(Some(x)) => [x] + rest
      case _ => rest
  }

  /**
   * The strategy a page is decoded with: `auto` becomes `relaxed` when the
   * page has at least `threshold` characters of text, and `strict` below;
   * any other setting is kept.
   */
  function ResolveStrategy(setting: OcrStrategy, threshold: int, text: string): (r: OcrStrategy)
    ensures r != Auto
    ensures setting == Auto ==> (r == Relaxed <==> |text| >= threshold)
    ensures setting != Auto ==> r == setting
  {
    if setting == Auto then (if |text| >= threshold then Relaxed else Strict) else setting
  }

  /**
   * One page: the stripped text and the layout images for a `relaxed` page;
   * for a `strict` page the text is dropped and the full-page rendering is
   * the only image.
   */
  function PageContentOf(raw: RawPage, setting: OcrStrategy, threshold: int): (r: PageContent)
    ensures r.strategy == ResolveStrategy(setting, threshold, PyStr.Strip(raw.text))
    ensures r.strategy == Strict ==> r.text == "" && r.images == [raw.fullPage]
    ensures r.strategy == Relaxed ==> r.text == PyStr.Strip(raw.text) && r.images == LayoutImages(raw.blocks)
  {
    var text := PyStr.Strip(raw.text);
    match ResolveStrategy(setting, threshold, text)
    case Strict => PageContent("", [raw.fullPage], Strict)
    case Relaxed => PageContent(text, LayoutImages(raw.blocks), Relaxed)
  }

  function PageContents(raws: seq<RawPage>, setting: OcrStrategy, threshold: int): (r: seq<PageContent>)
    ensures |r| == |raws|
    ensures forall i :: 0 <= i < |raws| ==> r[i] == PageContentOf(raws[i], setting, threshold)
  {
    seq(|raws|, i requires 0 <= i < |raws| => PageContentOf(raws[i], setting, threshold))
  }

  /** After resolution no page is `auto`, and an explicit setting applies to every page. */
  lemma NoPageStaysAuto(raws: seq<RawPage>, setting: OcrStrategy, threshold: int, i: nat)
    requires i < |raws|
    ensures PageContents(raws, setting, threshold)[i].strategy != Auto
    ensures setting != Auto ==> PageContents(raws, setting, threshold)[i].strategy == setting
    ensures setting == Auto ==>
      (PageContents(raws, setting, threshold)[i].strategy == Relaxed <==> |PyStr.Strip(raws[i].text)| >= threshold)
  {
  }

  // ---------------------------------------------------------------------
  // `extract_image_texts_per_page`

  /** Too small to be worth a vision request. */
  predicate IsTiny(img: ImageData)
    requires img.Picture?
  {
    img.width <= TinyImageWidthThreshold || img.height <= TinyImageHeightThreshold
  }

  /** A text in brackets keeps having no line break. */
  lemma BracketedSingleLine(t: string)
    requires Fanout.SingleLine(t)
    ensures Fanout.SingleLine("[" + t + "]")
  {
    Fanout.SingleLineIffNoNewline(t);
    assert forall i :: 1 <= i < |t| + 1 ==> ("[" + t + "]")[i] == t[i - 1];
    Fanout.SingleLineIffNoNewline("[" + t + "]");
  }

  /** What an image without an answer becomes: the page or the image is unprocessable. */
  function Placeholder(strategy: OcrStrategy): (r: string)
    ensures Fanout.SingleLine(r)
  {
    var r := if strategy == Strict then "[Unprocessable page]" else "[Unprocessable image]";
    assert PyStr.HasNoChar(r, '\n');
    Fanout.SingleLineIffNoNewline(r);
    r
  }

  /**
   * The text one image contributes, if any: nothing for unreadable or tiny
   * images, for a callback that raises and for a multi-line answer (the
   * failed assertion is caught); a placeholder for no answer; the answer,
   * in brackets on a `relaxed` page.
   */
  function ImageText(strategy: OcrStrategy, img: ImageData,
                     pageCallback: ImageData -> Fanout.CallbackOutcome,
                     imageCallback: ImageData -> Fanout.CallbackOutcome): (r: Option<string>)
    ensures r.Some? ==> Fanout.SingleLine(r.value)
    ensures img.Unreadable? || (img.Picture? && IsTiny(img)) ==> r.None?
    ensures img.Picture? && !IsTiny(img) ==>
      var answer := if strategy == Strict then pageCallback(img) else imageCallback(img);
      && (answer.Raised? ==> r.None?)
      && (answer == Fanout.Returned(None) ==>
            r == Some(Placeholder(strategy)))
      && (answer.Returned? && answer.text.Some? && !Fanout.SingleLine(answer.text.value) ==> r.None?)
      && (answer.Returned? && answer.text.Some? && Fanout.SingleLine(answer.text.value) ==>
            r == Some(if strategy == Relaxed then "[" + answer.text.value + "]" else answer.text.value))
  {
    if img.Unreadable? || IsTiny(img) then None
    else
      var answer := if strategy == Strict then pageCallback(img) else imageCallback(img);
      match answer
      case Raised => None
      case Returned(None) => Some(Placeholder(strategy))
      case Returned(Some(t)) =>
        if !Fanout.SingleLine(t) then None
        else if strategy == Relaxed then
          BracketedSingleLine(t);
          Some("[" + t + "]")
        else Some(t)
  }

  /** The texts of one page's images, in image order. */
  function PageImageTexts(page: PageContent,
                          pageCallback: ImageData -> Fanout.CallbackOutcome,
                          imageCallback: ImageData -> Fanout.CallbackOutcome): (r: seq<string>)
    ensures |r| <= |page.images|
    ensures forall k :: 0 <= k < |r| ==> Fanout.SingleLine(r[k])
    decreases |page.images|
  {
    if |page.images| == 0 then []
    else
      var rest := PageImageTexts(page.(images := page.images[1..]), pageCallback, imageCallback);
      match ImageText(page.strategy, page.images[0], pageCallback, imageCallback)
      case Some(t) => [t] + rest
      case None => rest
  }

  /** One list of image texts per page. */
  function ImageTextsPerPage(pages: seq<PageContent>,
                             pageCallback: ImageData -> Fanout.CallbackOutcome,
                             imageCallback: ImageData -> Fanout.CallbackOutcome): (r: seq<seq<string>>)
    ensures |r| == |pages|
    ensures forall i :: 0 <= i < |pages| ==> r[i] == PageImageTexts(pages[i], pageCallback, imageCallback)
  {
    seq(|pages|, i requires 0 <= i < |pages| => PageImageTexts(pages[i], pageCallback, imageCallback))
  }

  // ---------------------------------------------------------------------
  // `build_document_text_from_pages`: the expected layout

  datatype BuildError = AssertionError

  /** The image texts of page `i`, none when vision is off. */
  function TextsOf(imageTexts: Option<seq<seq<string>>>, i: nat): seq<string>
  {
    if imageTexts.Some? && i < |imageTexts.value| then imageTexts.value[i] else []
  }

  /** Three lines per image text: a blank line, the text, a blank line. */
  function ImageLines(texts: seq<string>): (r: seq<string>)
    ensures |r| == 3 * |texts|
  {
    if |texts| == 0 then [] else ["", texts[0], ""] + ImageLines(texts[1..])
  }

  /** Image text `k` sits between two blank lines at `3 * k`. */
  lemma {:induction false} ImageLinesAt(texts: seq<string>, k: nat)
    requires k < |texts|
    ensures var r := ImageLines(texts);
      r[3 * k] == "" && r[3 * k + 1] == texts[k] && r[3 * k + 2] == ""
    decreases k
  {
    if k > 0 {
      ImageLinesAt(texts[1..], k - 1);
      assert ImageLines(texts) == ["", texts[0], ""] + ImageLines(texts[1..]);
      assert 3 * k == 3 + 3 * (k - 1);
    }
  }

  /** A page's lines: its image lines, then its text lines, then one blank line. */
  function PageBlock(texts: seq<string>, text: string): seq<string>
  {
    ImageLines(texts) + PyStr.Split(text, '\n') + [""]
  }

  function Repeat(v: int, n: nat): (r: seq<int>)
    ensures |r| == n && forall k :: 0 <= k < n ==> r[k] == v
  {
    seq(n, _ => v)
  }

  /** The lines of pages `k..`. */
  function LinesFrom(pages: seq<PageContent>, imageTexts: Option<seq<seq<string>>>, k: nat): seq<string>
    decreases |pages| - k
  {
    if k >= |pages| then [] else PageBlock(TextsOf(imageTexts, k), pages[k].text) + LinesFrom(pages, imageTexts, k + 1)
  }

  /** The page tags of pages `k..`: page `i` tags each of its lines with `i + 1`. */
  function TagsFrom(pages: seq<PageContent>, imageTexts: Option<seq<seq<string>>>, k: nat): seq<int>
    decreases |pages| - k
  {
    if k >= |pages| then []
    else Repeat(k + 1, |PageBlock(TextsOf(imageTexts, k), pages[k].text)|) + TagsFrom(pages, imageTexts, k + 1)
  }

  predicate NonDecreasing(s: seq<int>)
  {
    forall i, j :: 0 <= i <= j < |s| ==> s[i] <= s[j]
  }

  /** Tags run from `k + 1` to the page count, never going back. */
  lemma {:induction false} TagsFromSorted(pages: seq<PageContent>, imageTexts: Option<seq<seq<string>>>, k: nat)
    requires k <= |pages|
    ensures |TagsFrom(pages, imageTexts, k)| == |LinesFrom(pages, imageTexts, k)|
    ensures NonDecreasing(TagsFrom(pages, imageTexts, k))
    ensures forall i :: 0 <= i < |TagsFrom(pages, imageTexts, k)| ==> k + 1 <= TagsFrom(pages, imageTexts, k)[i] <= |pages|
    decreases |pages| - k
  {
    if k < |pages| {
      TagsFromSorted(pages, imageTexts, k + 1);
    }
  }

  // ---------------------------------------------------------------------
  // `build_document_text_from_pages`: the builder's pushes

  /** `push("")`, `push(text)`, `push("")` per image text, all on `page`. */
  function PushImageTexts(b: Builders.PageBuilder, texts: seq<string>, page: int): (r: Builders.PageBuilder)
    requires Builders.PageValid(b)
    ensures Builders.PageValid(r)
    ensures r.lines == b.lines + ImageLines(texts) && r.pages == b.pages + Repeat(page, 3 * |texts|)
    ensures r.current == if |texts| == 0 then b.current else page
    decreases |texts|
  {
    if |texts| == 0 then b
    else
      var b1 := Builders.PagePush(Builders.PagePush(Builders.PagePush(b, "", Some(page)), texts[0], Some(page)), "", Some(page));
      var r := PushImageTexts(b1, texts[1..], page);
      assert ImageLines(texts) == ["", texts[0], ""] + ImageLines(texts[1..]);
      assert Repeat(page, 3 * |texts|) == [page, page, page] + Repeat(page, 3 * |texts[1..]|);
      r
  }

  /** `push(line, page)` for each line. */
  function PushLines(b: Builders.PageBuilder, lines: seq<string>, page: int): (r: Builders.PageBuilder)
    requires Builders.PageValid(b)
    ensures Builders.PageValid(r)
    ensures r.lines == b.lines + lines && r.pages == b.pages + Repeat(page, |lines|)
    ensures r.current == if |lines| == 0 then b.current else page
    decreases |lines|
  {
    if |lines| == 0 then b
    else
      var r := PushLines(Builders.PagePush(b, lines[0], Some(page)), lines[1..], page);
      assert lines == [lines[0]] + lines[1..];
      assert Repeat(page, |lines|) == [page] + Repeat(page, |lines[1..]|);
      r
  }

  /**
   * One page: image texts, text lines, then `push()` with no page number.
   * The split of the page text always has a line, so the final blank line
   * lands on this page.
   */
  function PushPage(b: Builders.PageBuilder, texts: seq<string>, text: string, page: int): (r: Builders.PageBuilder)
    requires Builders.PageValid(b)
    ensures Builders.PageValid(r) && r.current == page
    ensures r.lines == b.lines + PageBlock(texts, text)
    ensures r.pages == b.pages + Repeat(page, |PageBlock(texts, text)|)
  {
    var b1 := PushImageTexts(b, texts, page);
    var b2 := PushLines(b1, PyStr.Split(text, '\n'), page);
    var r := Builders.PagePush(b2, "", None);
    RepeatAppend(page, 3 * |texts|, |PyStr.Split(text, '\n')|);
    RepeatAppend(page, 3 * |texts| + |PyStr.Split(text, '\n')|, 1);
    r
  }

  /** Pages `k..` pushed in order, page `i` as number `i + 1`. */
  function PushPagesFrom(b: Builders.PageBuilder, pages: seq<PageContent>, imageTexts: Option<seq<seq<string>>>, k: nat): (r: Builders.PageBuilder)
    requires Builders.PageValid(b)
    ensures Builders.PageValid(r)
    ensures r.lines == b.lines + LinesFrom(pages, imageTexts, k)
    ensures r.pages == b.pages + TagsFrom(pages, imageTexts, k)
    decreases |pages| - k
  {
    if k >= |pages| then b
    else
      var b1 := PushPage(b, TextsOf(imageTexts, k), pages[k].text, k + 1);
      var r := PushPagesFrom(b1, pages, imageTexts, k + 1);
      var block := PageBlock(TextsOf(imageTexts, k), pages[k].text);
      PyStr.AppendAssoc(b.lines, block, LinesFrom(pages, imageTexts, k + 1));
      PyStr.AppendAssoc(b.pages, Repeat(k + 1, |block|), TagsFrom(pages, imageTexts, k + 1));
      r
  }

  lemma RepeatAppend(v: int, a: nat, b: nat)
    ensures Repeat(v, a) + Repeat(v, b) == Repeat(v, a + b)
  {
  }

  /** Every image text on every page is one line. */
  predicate AllSingleLine(texts: seq<seq<string>>)
  {
    forall i, j :: 0 <= i < |texts| && 0 <= j < |texts[i]| ==> Fanout.SingleLine(texts[i][j])
  }

  /**
   * `build_document_text_from_pages`: the lines and page tags of the
   * document, or the assertion error raised when the image texts do not
   * match the pages one to one or one of them is not a single line.
   */
  function BuildDocumentText(pages: seq<PageContent>, imageTexts: Option<seq<seq<string>>>): (r: Result<Option<(seq<string>, seq<int>)>, BuildError>)
    ensures r.Failure? <==> imageTexts.Some? && (|imageTexts.value| != |pages| || !AllSingleLine(imageTexts.value))
    ensures r.Success? ==> (r.value.None? <==> |pages| == 0)
    ensures r.Success? && r.value.Some? ==>
      r.value.value.0 == LinesFrom(pages, imageTexts, 0) && r.value.value.1 == TagsFrom(pages, imageTexts, 0)
  {
    if imageTexts.Some? && (|imageTexts.value| != |pages| || !AllSingleLine(imageTexts.value)) then Failure(AssertionError)
    else
      var b := PushPagesFrom(Builders.NewPageBuilder(None), pages, imageTexts, 0);
      assert |pages| > 0 ==> |LinesFrom(pages, imageTexts, 0)| > 0;
      Success(Builders.PageContent(b))
  }

  /**
   * Each line has a page tag, tags are page numbers from 1 that never go
   * back, and every page contributes three lines per image text, its text
   * lines and a closing blank line.
   */
  lemma BuildTagsEveryLine(pages: seq<PageContent>, imageTexts: Option<seq<seq<string>>>)
    requires BuildDocumentText(pages, imageTexts).Success?
    requires |pages| > 0
    ensures var doc := BuildDocumentText(pages, imageTexts).value.value;
      && |doc.0| == |doc.1|
      && NonDecreasing(doc.1)
      && (forall i :: 0 <= i < |doc.1| ==> 1 <= doc.1[i] <= |pages|)
      && doc.0 == PageBlock(TextsOf(imageTexts, 0), pages[0].text) + LinesFrom(pages, imageTexts, 1)
  {
    TagsFromSorted(pages, imageTexts, 0);
  }

  /** Texts made by the image pass never trip the build's assertions. */
  lemma ExtractedTextsBuild(pages: seq<PageContent>,
                            pageCallback: ImageData -> Fanout.CallbackOutcome,
                            imageCallback: ImageData -> Fanout.CallbackOutcome)
    ensures BuildDocumentText(pages, Some(ImageTextsPerPage(pages, pageCallback, imageCallback))).Success?
  {
  }
}
