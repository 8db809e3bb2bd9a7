/**
 * File-type predicates. Every loader decides what it can read by a
 * case-insensitive suffix test, `any(path.lower().endswith(ext) for ext in
 * extensions)`, over its own list of extensions; `os.path.splitext`
 * supplies the extension Pandoc is told about.
 */
module Extensions {
  import PyStr

  // ---------------------------------------------------------------------
  // The suffix test

  /** `any(path.lower().endswith(ext) for ext in exts)`. */
  predicate HasExtension(path: string, exts: seq<string>)
  {
    exists k :: 0 <= k < |exts| && PyStr.EndsWith(PyStr.Lower(path), exts[k])
  }

  predicate IsLowerText(s: string)
  {
    forall i :: 0 <= i < |s| ==> PyStr.LowerChar(s[i]) == s[i]
  }

  predicate AllLowerText(exts: seq<string>)
  {
    forall k :: 0 <= k < |exts| ==> IsLowerText(exts[k])
  }

  /** Lower-casing twice is lower-casing once. */
  lemma LowerIdempotent(s: string)
    ensures PyStr.Lower(PyStr.Lower(s)) == PyStr.Lower(s)
  {
  }

  /**
   * Case does not matter: a path whose last `|e|` characters spell a listed
   * extension `e` in any mix of cases has that extension.
   */
  lemma SuffixMatchesUpToCase(path: string, exts: seq<string>, k: nat)
    requires k < |exts| && |exts[k]| <= |path|
    requires PyStr.Lower(path[|path| - |exts[k]|..]) == exts[k]
    ensures HasExtension(path, exts)
  {
    var low := PyStr.Lower(path);
    var n := |path| - |exts[k]|;
    var tail := PyStr.Lower(path[n..]);
    assert forall i :: 0 <= i < |tail| ==> low[n..][i] == tail[i];
    assert low[n..] == tail;
    assert PyStr.EndsWith(low, exts[k]);
  }

  /** A path matches exactly when its lower-cased form does. */
  lemma ExtensionIgnoresCase(path: string, exts: seq<string>)
    ensures HasExtension(PyStr.Lower(path), exts) == HasExtension(path, exts)
  {
    LowerIdempotent(path);
  }

  // ---------------------------------------------------------------------
  // The extension lists, one per predicate

  const PdfExtensions: seq<string> := [".pdf"]
  const LoaderPlaintextExtensions: seq<string> := [".txt", ".md", ".markdown"]
  const AsciiDocumentExtensions: seq<string> := [".html", ".htm"]
  const BinaryDocumentExtensions: seq<string> := [".odt", ".docx"]
  const ImageExtensions: seq<string> := [".jpg", ".jpeg", ".png", ".gif", ".webp", ".bmp"]
  const TextPlaintextExtensions: seq<string> := [".txt", ".md"]
  const TextDocumentExtensions: seq<string> := [".odt", ".docx", ".rtf", ".html"]

  /** `is_pdf_document`, the same in both PDF loaders. */
  predicate IsPdfDocument(path: string) { HasExtension(path, PdfExtensions) }

  /** `is_plaintext` of the text loader. */
  predicate IsLoaderPlaintext(path: string) { HasExtension(path, LoaderPlaintextExtensions) }

  /** `is_ascii_document`. */
  predicate IsAsciiDocument(path: string) { HasExtension(path, AsciiDocumentExtensions) }

  /** `is_binary_document`. */
  predicate IsBinaryDocument(path: string) { HasExtension(path, BinaryDocumentExtensions) }

  /** `is_image`. */
  predicate IsImage(path: string) { HasExtension(path, ImageExtensions) }

  /** `is_plaintext` of the text utilities: no `.markdown` here. */
  predicate IsTextPlaintext(path: string) { HasExtension(path, TextPlaintextExtensions) }

  /** `is_document` of the text utilities. */
  predicate IsTextDocument(path: string) { HasExtension(path, TextDocumentExtensions) }

  /** `is_text`. */
  predicate IsText(path: string) { IsTextPlaintext(path) || IsTextDocument(path) }

  /**
   * No path has a listed extension when, counting `j` from the end, its
   * character differs in lower case from that of every extension.
   */
  lemma CharFromEndRules(path: string, exts: seq<string>, j: nat, c: char)
    requires j < |path| && PyStr.LowerChar(path[|path| - 1 - j]) == c
    requires forall k :: 0 <= k < |exts| ==> |exts[k]| > j && exts[k][|exts[k]| - 1 - j] != c
    ensures !HasExtension(path, exts)
  {
    var low := PyStr.Lower(path);
    forall k | 0 <= k < |exts|
      ensures !PyStr.EndsWith(low, exts[k])
    {
      if |exts[k]| <= |low| {
        assert low[|low| - |exts[k]|..][|exts[k]| - 1 - j] == low[|low| - 1 - j];
      }
    }
  }

  /** The image extensions are matched in any case. */
  lemma ImageExamplesAccepted()
    ensures IsImage("image.PNG")
    ensures IsImage("icon.JPeG")
  {
    var a := "image.PNG";
    assert a[5..] == ['.', 'P', 'N', 'G'];
    assert PyStr.Lower(a[5..]) == ".png";
    SuffixMatchesUpToCase(a, ImageExtensions, 2);
    var b := "icon.JPeG";
    assert b[4..] == ['.', 'J', 'P', 'e', 'G'];
    assert PyStr.Lower(b[4..]) == ".jpeg";
    SuffixMatchesUpToCase(b, ImageExtensions, 1);
  }

  /** Other suffixes are refused, and only the final suffix counts. */
  lemma ImageExamplesRefused()
    ensures !IsImage("document.pdf")
    ensures !IsImage("script.py")
    ensures !IsImage("archive.tar.gz")
  {
    var e := ImageExtensions;
    forall k | 0 <= k < |e|
      ensures |e[k]| > 1 && e[k][|e[k]| - 1] != 'y' && e[k][|e[k]| - 1] != 'z' && e[k][|e[k]| - 2] != 'd'
    {
    }
    var a, b, c := "document.pdf", "script.py", "archive.tar.gz";
    CharFromEndRules(a, e, 1, 'd');
    CharFromEndRules(b, e, 0, 'y');
    CharFromEndRules(c, e, 0, 'z');
  }

  /** `is_text` accepts exactly the union of the plaintext and document lists. */
  lemma TextIsUnion(path: string)
    ensures IsText(path) <==> HasExtension(path, TextPlaintextExtensions + TextDocumentExtensions)
  {
    var all := TextPlaintextExtensions + TextDocumentExtensions;
    var low := PyStr.Lower(path);
    if IsTextPlaintext(path) {
      var k :| 0 <= k < |TextPlaintextExtensions| && PyStr.EndsWith(low, TextPlaintextExtensions[k]);
      assert all[k] == TextPlaintextExtensions[k];
    } else if IsTextDocument(path) {
      var k :| 0 <= k < |TextDocumentExtensions| && PyStr.EndsWith(low, TextDocumentExtensions[k]);
      assert all[k + 2] == TextDocumentExtensions[k];
    }
    if HasExtension(path, all) {
      var k :| 0 <= k < |all| && PyStr.EndsWith(low, all[k]);
      if k < 2 {
        assert all[k] == TextPlaintextExtensions[k];
      } else {
        assert all[k] == TextDocumentExtensions[k - 2];
      }
    }
  }

  // ---------------------------------------------------------------------
  // `os.path.splitext`

  /** `s.rfind(c)`: the last index holding `c`, or -1. */
  function LastIndexOf(s: string, c: char): (i: int)
    ensures -1 <= i < |s|
    ensures i >= 0 ==> s[i] == c
    ensures forall k :: i < k < |s| ==> s[k] != c
  {
    if |s| == 0 then -1
    else if s[|s| - 1] == c then |s| - 1
    else LastIndexOf(s[..|s| - 1], c)
  }

  /** The index `rfind` returns is the only index with no later `c`. */
  lemma LastIndexOfUnique(s: string, c: char, i: int)
    requires -1 <= i < |s|
    requires i >= 0 ==> s[i] == c
    requires forall k :: i < k < |s| ==> s[k] != c
    ensures LastIndexOf(s, c) == i
  {
  }

  /**
   * `os.path.splitext` on a POSIX path: the extension starts at the last
   * `"."` of the last path component, unless every character before it in
   * that component is a dot (a hidden file has no extension).
   */
  function SplitExt(path: string): (r: (string, string))
    ensures r.0 + r.1 == path
    ensures r.1 == "" || (r.1[0] == '.' && PyStr.HasNoChar(r.1[1..], '.') && PyStr.HasNoChar(r.1, '/'))
  {
    var sepIndex := LastIndexOf(path, '/');
    var dotIndex := LastIndexOf(path, '.');
    if dotIndex > sepIndex && exists k :: sepIndex + 1 <= k < dotIndex && path[k] != '.' then
      assert path[..dotIndex] + path[dotIndex..] == path;
      (path[..dotIndex], path[dotIndex..])
    else (path, "")
  }

  /** A name with a stem and a suffix without dots or slashes splits at the suffix. */
  lemma SplitExtOfName(stem: string, x: string)
    requires |stem| > 0 && stem[|stem| - 1] != '.' && stem[|stem| - 1] != '/'
    requires PyStr.HasNoChar(x, '.') && PyStr.HasNoChar(x, '/')
    ensures SplitExt(stem + "." + x) == (stem, "." + x)
  {
    var p := stem + "." + x;
    LastIndexOfUnique(p, '.', |stem|);
    forall k | |stem| + 1 <= k < |p|
      ensures p[k] != '/'
    {
      assert p[k] == x[k - |stem| - 1];
    }
    assert LastIndexOf(p, '/') < |stem| - 1;
    assert p[|stem| - 1] != '.';
    assert p[..|stem|] == stem;
    assert p[|stem|..] == "." + x;
  }

  /** A hidden file such as `.htm` has no extension. */
  lemma HiddenNameHasNoExtension(x: string)
    requires PyStr.HasNoChar(x, '.') && PyStr.HasNoChar(x, '/')
    ensures SplitExt("." + x) == ("." + x, "")
  {
    var p := "." + x;
    LastIndexOfUnique(p, '.', 0);
  }
}
