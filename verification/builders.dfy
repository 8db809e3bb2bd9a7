/**
 * The two document builders and the checks a `DocumentContent` makes when
 * it is built. `PageTextBuilder` tags every line with a page number and
 * `LineTextBuilder` with a line number. Their `getDocumentContent` hands the
 * lines and tags to `DocumentContent.from_lines`, which the class as given
 * does not define; the model returns the lines and the tags instead, and
 * states separately when `DocumentContent`'s own checks accept them.
 * `splitlines_exact` is modelled as the split on `"\n"`.
 */
module Builders {
  import opened Wrappers
  import PyStr

  // ---------------------------------------------------------------------
  // `PageTextBuilder`

  datatype PageBuilder = PageBuilder(lines: seq<string>, pages: seq<int>, current: int)

  /** Every line has its page number. */
  predicate PageValid(b: PageBuilder)
  {
    |b.lines| == |b.pages|
  }

  /** `push(line, page_number)`: a given page number becomes the current page; without one the current page is used. */
  function PagePush(b: PageBuilder, line: string, page: Option<int>): (r: PageBuilder)
    requires PageValid(b)
    ensures PageValid(r)
    ensures r.lines == b.lines + [line]
    ensures page.None? ==> r.pages == b.pages + [b.current] && r.current == b.current
    ensures page.Some? ==> r.pages == b.pages + [page.value] && r.current == page.value
  {
    var p := page.GetOr(b.current);
    PageBuilder(b.lines + [line], b.pages + [p], p)
  }

  /** Pushing each line in turn without a page number. */
  function PagePushAll(b: PageBuilder, lines: seq<string>): (r: PageBuilder)
    requires PageValid(b)
    ensures PageValid(r) && r.current == b.current
    ensures r.lines == b.lines + lines
    ensures |r.pages| == |b.pages| + |lines|
    ensures forall k :: 0 <= k < |b.pages| ==> r.pages[k] == b.pages[k]
    ensures forall k :: |b.pages| <= k < |r.pages| ==> r.pages[k] == b.current
    decreases |lines|
  {
    if |lines| == 0 then b
    else
      var r := PagePushAll(PagePush(b, lines[0], None), lines[1..]);
      assert b.lines + [lines[0]] + lines[1..] == b.lines + lines;
      r
  }

  /** `PageTextBuilder(text)`: the current page starts at 1, and the text's lines are pushed on it. */
  function NewPageBuilder(text: Option<string>): (r: PageBuilder)
    ensures PageValid(r) && r.current == 1
    ensures text.None? ==> r.lines == []
    ensures text.Some? ==> r.lines == PyStr.Split(text.value, '\n')
    ensures forall k :: 0 <= k < |r.pages| ==> r.pages[k] == 1
  {
    var empty := PageBuilder([], [], 1);
    if text.None? then empty else PagePushAll(empty, PyStr.Split(text.value, '\n'))
  }

  /** `getDocumentContent`: nothing for an empty builder, else the lines and their page numbers. */
  function PageContent(b: PageBuilder): (r: Option<(seq<string>, seq<int>)>)
    requires PageValid(b)
    ensures r.None? <==> |b.lines| == 0
    ensures r.Some? ==> r.value.0 == b.lines && r.value.1 == b.pages && |r.value.0| == |r.value.1|
  {
    if |b.lines| == 0 then None else Some((b.lines, b.pages))
  }

  /** A builder made from text always has content: the split of any text has a line. */
  lemma PageBuilderFromTextHasContent(text: string)
    ensures PageContent(NewPageBuilder(Some(text))).Some?
  {
  }

  /** Pages given explicitly stick: later pushes without a number land on the last one given. */
  lemma PageNumberSticks(b: PageBuilder, a: string, p: int, c: string)
    requires PageValid(b)
    ensures var r := PagePush(PagePush(b, a, Some(p)), c, None);
      r.pages == b.pages + [p, p]
  {
  }

  // ---------------------------------------------------------------------
  // `LineTextBuilder`

  datatype LineBuilder = LineBuilder(lines: seq<string>, numbers: seq<int>)

  predicate LineValid(b: LineBuilder)
  {
    |b.lines| == |b.numbers|
  }

  /** `push(line, line_number)`: without a number, the line gets the count of lines so far plus one. */
  function LinePush(b: LineBuilder, line: string, number: Option<int>): (r: LineBuilder)
    requires LineValid(b)
    ensures LineValid(r)
    ensures r.lines == b.lines + [line]
    ensures number.None? ==> r.numbers == b.numbers + [|b.lines| + 1]
    ensures number.Some? ==> r.numbers == b.numbers + [number.value]
  {
    LineBuilder(b.lines + [line], b.numbers + [number.GetOr(|b.lines| + 1)])
  }

  /** Pushing each line in turn without a number: they are numbered by position. */
  function LinePushAll(b: LineBuilder, lines: seq<string>): (r: LineBuilder)
    requires LineValid(b)
    ensures LineValid(r) && r.lines == b.lines + lines
    ensures forall k :: 0 <= k < |b.numbers| ==> r.numbers[k] == b.numbers[k]
    ensures forall k :: |b.numbers| <= k < |r.numbers| ==> r.numbers[k] == k + 1
    decreases |lines|
  {
    if |lines| == 0 then b
    else
      var r := LinePushAll(LinePush(b, lines[0], None), lines[1..]);
      assert b.lines + [lines[0]] + lines[1..] == b.lines + lines;
      r
  }

  /** `LineTextBuilder(text)`: the text's lines numbered `1..n`. */
  function NewLineBuilder(text: Option<string>): (r: LineBuilder)
    ensures LineValid(r)
    ensures text.None? ==> r.lines == []
    ensures text.Some? ==> r.lines == PyStr.Split(text.value, '\n')
    ensures forall k :: 0 <= k < |r.numbers| ==> r.numbers[k] == k + 1
  {
    var empty := LineBuilder([], []);
    if text.None? then empty else LinePushAll(empty, PyStr.Split(text.value, '\n'))
  }

  /** `getDocumentContent`: nothing for an empty builder, else the lines and their line numbers. */
  function LineContent(b: LineBuilder): (r: Option<(seq<string>, seq<int>)>)
    requires LineValid(b)
    ensures r.None? <==> |b.lines| == 0
    ensures r.Some? ==> r.value.0 == b.lines && r.value.1 == b.numbers && |r.value.0| == |r.value.1|
  {
    if |b.lines| == 0 then None else Some((b.lines, b.numbers))
  }

  /** An explicit number is stored as given, and the next default number still counts lines. */
  lemma ExplicitNumberKeepsCount(b: LineBuilder, a: string, n: int, c: string)
    requires LineValid(b)
    ensures var r := LinePush(LinePush(b, a, Some(n)), c, None);
      r.numbers == b.numbers + [n, |b.lines| + 2]
  {
  }

  // ---------------------------------------------------------------------
  // `DocumentContent.__post_init__`

  datatype DocumentContent = DocumentContent(text: string, linesPerLine: Option<seq<int>>, pagesPerLine: Option<seq<int>>)

  datatype ContentError = ValueError(message: string)

  /**
   * The checks in their order: not both tag lists, and a given tag list has
   * one entry per line of `text.splitlines()`. Neither list is accepted.
   */
  function MakeContent(text: string, linesPerLine: Option<seq<int>>, pagesPerLine: Option<seq<int>>): (r: Result<DocumentContent, ContentError>)
    ensures r.Success? <==>
      (linesPerLine.None? || pagesPerLine.None?)
      && (linesPerLine.Some? ==> |linesPerLine.value| == |PyStr.SplitLines(text)|)
      && (pagesPerLine.Some? ==> |pagesPerLine.value| == |PyStr.SplitLines(text)|)
    ensures r.Success? ==> r.value == DocumentContent(text, linesPerLine, pagesPerLine)
    ensures linesPerLine.Some? && pagesPerLine.Some? ==>
      r == Failure(ValueError("Only one of `pages_per_line` or `lines_per_line` can be set"))
  {
    if linesPerLine.Some? && pagesPerLine.Some? then
      Failure(ValueError("Only one of `pages_per_line` or `lines_per_line` can be set"))
    else if linesPerLine.Some? && |linesPerLine.value| != |PyStr.SplitLines(text)| then
      Failure(ValueError("`lines_per_line` length must match text lines"))
    else if pagesPerLine.Some? && |pagesPerLine.value| != |PyStr.SplitLines(text)| then
      Failure(ValueError("`pages_per_line` length must match text lines"))
    else Success(DocumentContent(text, linesPerLine, pagesPerLine))
  }

  /**
   * Lines without line breaks, joined with `"\n"`, pass the page check with
   * one tag per line exactly when the last line is not empty: `splitlines`
   * does not count a final empty line.
   */
  lemma JoinedLinesAccepted(lines: seq<string>, tags: seq<int>)
    requires PyStr.AllNoLineBreak(lines) && |tags| == |lines|
    ensures MakeContent(PyStr.Join(lines, "\n"), None, Some(tags)).Success? <==> (|lines| == 0 || lines[|lines| - 1] != "")
  {
    PyStr.SplitLinesOfJoin(lines);
  }
}
