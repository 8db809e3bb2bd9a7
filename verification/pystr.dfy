/**
 * The parts of Python's `str` and `list` semantics that the modelled code
 * relies on: whitespace and line-break classes, strip, split, splitlines,
 * join, prefix/suffix tests, lower-casing and slicing with Python's index
 * rules.
 */
module PyStr {

  /** Characters for which Python's `str.isspace()` holds; also what `strip()` removes. */
  predicate IsSpace(c: char)
  {
    c == ' ' || c == '\t' || c == '\n' || c == '\r' || c == '\U{B}' || c == '\U{C}'
    || ('\U{1C}' <= c <= '\U{1F}') || c == '\U{85}' || c == '\U{A0}' || c == '\U{1680}'
    || ('\U{2000}' <= c <= '\U{200A}') || c == '\U{2028}' || c == '\U{2029}' || c == '\U{202F}'
    || c == '\U{205F}' || c == '\U{3000}'
  }

  /** Line boundaries recognised by `str.splitlines()`. */
  predicate IsLineBreak(c: char)
  {
    c == '\n' || c == '\r' || c == '\U{B}' || c == '\U{C}' || c == '\U{1C}'
    || c == '\U{1D}' || c == '\U{1E}' || c == '\U{85}' || c == '\U{2028}' || c == '\U{2029}'
  }

  predicate NoLineBreak(s: string)
  {
    forall i :: 0 <= i < |s| ==> !IsLineBreak(s[i])
  }

  predicate HasNoChar(s: string, c: char)
  {
    forall i :: 0 <= i < |s| ==> s[i] != c
  }

  /** Neither end of `s` is whitespace. */
  predicate IsStripped(s: string)
  {
    |s| == 0 || (!IsSpace(s[0]) && !IsSpace(s[|s| - 1]))
  }

  function LStrip(s: string): (r: string)
    ensures |r| <= |s| && r == s[|s| - |r|..]
    ensures |r| == 0 || !IsSpace(r[0])
    ensures forall i :: 0 <= i < |s| - |r| ==> IsSpace(s[i])
  {
    if |s| == 0 then s
    else if IsSpace(s[0]) then LStrip(s[1..])
    else s
  }

  function RStrip(s: string): (r: string)
    ensures |r| <= |s| && r == s[..|r|]
    ensures |r| == 0 || (r[0] == s[0] && !IsSpace(r[|r| - 1]))
    ensures forall i :: |r| <= i < |s| ==> IsSpace(s[i])
  {
    if |s| == 0 then s
    else if IsSpace(s[|s| - 1]) then RStrip(s[..|s| - 1])
    else s
  }

  /** Number of whitespace characters `strip()` removes from the front of `s`. */
  function StripOffset(s: string): (n: nat)
    ensures n <= |s|
    ensures forall i :: 0 <= i < n ==> IsSpace(s[i])
  {
    |s| - |LStrip(s)|
  }

  /** Python's `s.strip()`. */
  function Strip(s: string): (r: string)
    ensures IsStripped(r)
    ensures StripOffset(s) + |r| <= |s| && r == s[StripOffset(s)..StripOffset(s) + |r|]
  {
    var l := LStrip(s);
    var r := RStrip(l);
    PrefixOfSuffix(s, |s| - |l|, |r|);
    r
  }

  lemma PrefixOfSuffix<T>(s: seq<T>, i: nat, n: nat)
    requires i + n <= |s|
    ensures s[i..][..n] == s[i..i + n]
  {
  }

  /** Character `i` of the stripped text is character `StripOffset(s) + i` of the input. */
  lemma StripAt(s: string, i: nat)
    requires i < |Strip(s)|
    ensures StripOffset(s) + i < |s| && Strip(s)[i] == s[StripOffset(s) + i]
  {
    var o := StripOffset(s);
    var r := Strip(s);
    assert r == s[o..o + |r|];
  }

  lemma StripOfStripped(s: string)
    requires IsStripped(s)
    ensures Strip(s) == s
  {
  }

  lemma StripOfBlank(s: string)
    requires forall i :: 0 <= i < |s| ==> IsSpace(s[i])
    ensures Strip(s) == ""
  {
  }

  function LowerChar(c: char): char
  {
    if 'A' <= c <= 'Z' then (c as int + 32) as char else c
  }

  /** `str.lower()`, restricted to the ASCII letters. */
  function Lower(s: string): (r: string)
    ensures |r| == |s|
    ensures forall i :: 0 <= i < |s| ==> r[i] == LowerChar(s[i])
  {
    seq(|s|, i requires 0 <= i < |s| => LowerChar(s[i]))
  }

  predicate StartsWith(s: string, prefix: string)
  {
    |prefix| <= |s| && s[..|prefix|] == prefix
  }

  predicate EndsWith(s: string, suffix: string)
  {
    |suffix| <= |s| && s[|s| - |suffix|..] == suffix
  }

  /** `sep.join(parts)`. */
  function Join(parts: seq<string>, sep: string): (r: string)
  {
    if |parts| == 0 then ""
    else if |parts| == 1 then parts[0]
    else parts[0] + sep + Join(parts[1..], sep)
  }

  /** `s.split(c)` for a single separator character: never empty. */
  function Split(s: string, c: char): (r: seq<string>)
    ensures |r| >= 1
    ensures forall k :: 0 <= k < |r| ==> HasNoChar(r[k], c)
  {
    if |s| == 0 then [""]
    else if s[0] == c then [""] + Split(s[1..], c)
    else
      var t := Split(s[1..], c);
      [[s[0]] + t[0]] + t[1..]
  }

  /** Every character of every piece of a split comes from the input. */
  lemma {:induction false} SplitPiecesIn(s: string, c: char, k: nat)
    requires k < |Split(s, c)|
    ensures forall i :: 0 <= i < |Split(s, c)[k]| ==> Split(s, c)[k][i] in s
    decreases |s|
  {
    if |s| > 0 {
      var t := Split(s[1..], c);
      if s[0] == c {
        if k > 0 {
          SplitPiecesIn(s[1..], c, k - 1);
        }
      } else {
        if k == 0 {
          SplitPiecesIn(s[1..], c, 0);
        } else {
          SplitPiecesIn(s[1..], c, k);
        }
      }
    }
  }

  lemma SplitNoSeparator(s: string, c: char)
    requires HasNoChar(s, c)
    ensures Split(s, c) == [s]
  {
    if |s| > 0 {
      SplitNoSeparator(s[1..], c);
      assert [s[0]] + s[1..] == s;
    }
  }

  /** A separator in the text gives at least two pieces. */
  lemma {:induction false} SplitAtSeparator(s: string, c: char)
    requires c in s
    ensures |Split(s, c)| >= 2
  {
    if s[0] != c {
      assert c in s[1..] by {
        var i :| 0 <= i < |s| && s[i] == c;
        assert s[1..][i - 1] == c;
      }
      SplitAtSeparator(s[1..], c);
    }
  }

  lemma SplitAfterPiece(a: string, rest: string, c: char)
    requires HasNoChar(a, c)
    ensures Split(a + [c] + rest, c) == [a] + Split(rest, c)
  {
    if |a| == 0 {
      assert a + [c] + rest == [c] + rest;
      assert ([c] + rest)[1..] == rest;
    } else {
      SplitAfterPiece(a[1..], rest, c);
      assert (a + [c] + rest)[1..] == a[1..] + [c] + rest;
      assert [a[0]] + a[1..] == a;
    }
  }

  /** Splitting a join on the same separator gives the parts back. */
  lemma {:induction false} SplitJoin(parts: seq<string>, c: char)
    requires |parts| >= 1
    requires forall k :: 0 <= k < |parts| ==> HasNoChar(parts[k], c)
    ensures Split(Join(parts, [c]), c) == parts
  {
    if |parts| == 1 {
      SplitNoSeparator(parts[0], c);
    } else {
      SplitJoin(parts[1..], c);
      SplitAfterPiece(parts[0], Join(parts[1..], [c]), c);
      assert [parts[0]] + parts[1..] == parts;
    }
  }

  /** Joining the pieces of a split gives the string back. */
  lemma {:induction false} JoinSplit(s: string, c: char)
    ensures Join(Split(s, c), [c]) == s
  {
    if |s| == 0 {
    } else if s[0] == c {
      JoinSplit(s[1..], c);
      assert [s[0]] + s[1..] == s;
    } else {
      var t := Split(s[1..], c);
      JoinSplit(s[1..], c);
      assert [s[0]] + s[1..] == s;
      if |t| == 1 {
      } else {
        assert ([[s[0]] + t[0]] + t[1..])[1..] == t[1..];
      }
    }
  }

  /** Index of the first line break of `s`, or `|s|` when it has none. */
  function FirstBreak(s: string): (i: nat)
    ensures i <= |s|
    ensures i < |s| ==> IsLineBreak(s[i])
    ensures forall k :: 0 <= k < i ==> !IsLineBreak(s[k])
  {
    if |s| == 0 then 0
    else if IsLineBreak(s[0]) then 0
    else 1 + FirstBreak(s[1..])
  }

  /**
   * Python's `s.splitlines()`: lines without their terminators; "\r\n"
   * counts as one terminator and a final terminator adds no empty line.
   */
  function SplitLines(s: string): (r: seq<string>)
    ensures forall k :: 0 <= k < |r| ==> NoLineBreak(r[k])
    decreases |s|
  {
    if |s| == 0 then []
    else
      var i := FirstBreak(s);
      if i == |s| then [s]
      else
        var skip := if s[i] == '\r' && i + 1 < |s| && s[i + 1] == '\n' then 2 else 1;
        [s[..i]] + SplitLines(s[i + skip..])
  }

  lemma FirstBreakOfJoin(a: string, rest: string)
    requires NoLineBreak(a)
    ensures FirstBreak(a + "\n" + rest) == |a|
  {
    if |a| > 0 {
      FirstBreakOfJoin(a[1..], rest);
      assert (a + "\n" + rest)[1..] == a[1..] + "\n" + rest;
    }
  }

  lemma SplitLinesNoBreak(s: string)
    requires NoLineBreak(s) && |s| > 0
    ensures SplitLines(s) == [s]
  {
  }

  lemma SplitLinesStep(a: string, rest: string)
    requires NoLineBreak(a)
    ensures SplitLines(a + "\n" + rest) == [a] + SplitLines(rest)
  {
    var s := a + "\n" + rest;
    FirstBreakOfJoin(a, rest);
    assert s[|a|] == '\n';
    assert s[..|a|] == a;
    assert s[|a| + 1..] == rest;
  }

  /** `lines` without a final empty line. */
  function DropFinalEmpty(lines: seq<string>): (r: seq<string>)
    ensures |lines| > 0 && lines[|lines| - 1] == "" ==> r == lines[..|lines| - 1]
    ensures (|lines| == 0 || lines[|lines| - 1] != "") ==> r == lines
  {
    if |lines| > 0 && lines[|lines| - 1] == "" then lines[..|lines| - 1] else lines
  }

  predicate AllNoLineBreak(lines: seq<string>)
  {
    forall k :: 0 <= k < |lines| ==> NoLineBreak(lines[k])
  }

  lemma DropFinalEmptyCons(a: string, tl: seq<string>)
    requires |tl| > 0
    ensures DropFinalEmpty([a] + tl) == [a] + DropFinalEmpty(tl)
  {
    var lines := [a] + tl;
    assert lines[|lines| - 1] == tl[|tl| - 1];
    if tl[|tl| - 1] == "" {
      assert lines[..|lines| - 1] == [a] + tl[..|tl| - 1];
    }
  }

  lemma AllNoLineBreakTail(lines: seq<string>)
    requires |lines| > 0 && AllNoLineBreak(lines)
    ensures NoLineBreak(lines[0]) && AllNoLineBreak(lines[1..])
  {
    assert forall k :: 0 <= k < |lines| - 1 ==> lines[1..][k] == lines[k + 1];
  }

  /**
   * `"\n".join(lines).splitlines()` gives the lines back, except that a
   * final empty line is lost.
   */
  lemma {:induction false} SplitLinesOfJoin(lines: seq<string>)
    requires AllNoLineBreak(lines)
    ensures SplitLines(Join(lines, "\n")) == DropFinalEmpty(lines)
  {
    if |lines| == 1 {
      if lines[0] != "" {
        SplitLinesNoBreak(lines[0]);
      }
    } else if |lines| > 1 {
      var a := lines[0];
      var tl := lines[1..];
      assert lines == [a] + tl;
      var rest := Join(tl, "\n");
      assert Join(lines, "\n") == a + "\n" + rest;
      AllNoLineBreakTail(lines);
      SplitLinesStep(a, rest);
      SplitLinesOfJoin(tl);
      DropFinalEmptyCons(a, tl);
    }
  }

  /** A blank string, all whitespace, is exactly one that strips to nothing. */
  lemma StripEmptyIffBlank(s: string)
    ensures Strip(s) == "" <==> forall i :: 0 <= i < |s| ==> IsSpace(s[i])
  {
    var l := LStrip(s);
    if Strip(s) == "" {
      assert |l| == 0;
    } else {
      StripAt(s, 0);
    }
  }

  /** Stripping a line keeps it free of line breaks. */
  lemma StripNoLineBreak(s: string)
    requires NoLineBreak(s)
    ensures NoLineBreak(Strip(s))
  {
    forall i | 0 <= i < |Strip(s)|
      ensures !IsLineBreak(Strip(s)[i])
    {
      StripAt(s, i);
    }
  }

  /** Joining lines without line breaks by a separator without one gives a single line. */
  lemma {:induction false} JoinNoLineBreak(parts: seq<string>, sep: string)
    requires AllNoLineBreak(parts) && NoLineBreak(sep)
    ensures NoLineBreak(Join(parts, sep))
    decreases |parts|
  {
    if |parts| > 1 {
      AllNoLineBreakTail(parts);
      JoinNoLineBreak(parts[1..], sep);
    }
  }

  /** A join whose last part is not empty ends with that part's last character. */
  lemma {:induction false} JoinEndsWithLast(parts: seq<string>, sep: string)
    requires |parts| > 0 && |parts[|parts| - 1]| > 0
    ensures |Join(parts, sep)| > 0
    ensures Join(parts, sep)[|Join(parts, sep)| - 1] == parts[|parts| - 1][|parts[|parts| - 1]| - 1]
    decreases |parts|
  {
    if |parts| > 1 {
      JoinEndsWithLast(parts[1..], sep);
    }
  }

  /** The last part of a join of two or more parts follows the last separator. */
  lemma {:induction false} JoinLast(parts: seq<string>, sep: string)
    requires |parts| >= 2
    ensures Join(parts, sep) == Join(parts[..|parts| - 1], sep) + sep + parts[|parts| - 1]
    decreases |parts|
  {
    if |parts| > 2 {
      JoinLast(parts[1..], sep);
      assert parts[1..][..|parts| - 2] == parts[..|parts| - 1][1..];
    } else {
      assert parts[..1] == [parts[0]];
    }
  }

  /** `s.rstrip(c)` for one character: every trailing `c` removed. */
  function RStripChar(s: string, c: char): (r: string)
    ensures |r| <= |s| && r == s[..|r|]
    ensures |r| == 0 || r[|r| - 1] != c
    ensures forall i :: |r| <= i < |s| ==> s[i] == c
  {
    if |s| > 0 && s[|s| - 1] == c then RStripChar(s[..|s| - 1], c) else s
  }

  /** A string not ending in `c` is unchanged by stripping `c` on the right. */
  lemma RStripCharNone(s: string, c: char)
    requires |s| == 0 || s[|s| - 1] != c
    ensures RStripChar(s, c) == s
  {
  }

  /** A join begins with its first part. */
  lemma {:induction false} JoinStartsWithFirst(parts: seq<string>, sep: string)
    requires |parts| > 0
    ensures |parts[0]| <= |Join(parts, sep)| && Join(parts, sep)[..|parts[0]|] == parts[0]
  {
  }

  /**
   * `s.split(sep)` for a non-empty separator: the leftmost occurrence ends
   * the first piece and the search resumes after it.
   */
  function SplitOn(s: string, sep: string): (r: seq<string>)
    requires |sep| > 0
    ensures |r| >= 1
    decreases |s|
  {
    if |s| < |sep| then [s]
    else if s[..|sep|] == sep then [""] + SplitOn(s[|sep|..], sep)
    else
      var t := SplitOn(s[1..], sep);
      [[s[0]] + t[0]] + t[1..]
  }

  /** A piece without the separator's first character is not split. */
  lemma {:induction false} SplitOnNoSeparator(s: string, sep: string)
    requires |sep| > 0 && HasNoChar(s, sep[0])
    ensures SplitOn(s, sep) == [s]
    decreases |s|
  {
    if |s| >= |sep| {
      SplitOnNoSeparator(s[1..], sep);
      assert [s[0]] + s[1..] == s;
    }
  }

  /** The piece before the first separator comes off whole. */
  lemma {:induction false} SplitOnAfterPiece(a: string, sep: string, rest: string)
    requires |sep| > 0 && HasNoChar(a, sep[0])
    ensures SplitOn(a + sep + rest, sep) == [a] + SplitOn(rest, sep)
    decreases |a|
  {
    var s := a + sep + rest;
    if |a| == 0 {
      assert s == sep + rest;
      assert s[..|sep|] == sep && s[|sep|..] == rest;
    } else {
      assert s[1..] == a[1..] + sep + rest;
      SplitOnAfterPiece(a[1..], sep, rest);
      assert [a[0]] + a[1..] == a;
    }
  }

  /** `sep.join(parts).split(sep)` gives the parts back when none holds the separator's first character. */
  lemma {:induction false} SplitOnJoin(parts: seq<string>, sep: string)
    requires |sep| > 0 && |parts| >= 1
    requires forall k :: 0 <= k < |parts| ==> HasNoChar(parts[k], sep[0])
    ensures SplitOn(Join(parts, sep), sep) == parts
    decreases |parts|
  {
    if |parts| == 1 {
      SplitOnNoSeparator(parts[0], sep);
    } else {
      SplitOnJoin(parts[1..], sep);
      SplitOnAfterPiece(parts[0], sep, Join(parts[1..], sep));
      assert [parts[0]] + parts[1..] == parts;
    }
  }

  lemma AppendAssoc<T>(a: seq<T>, b: seq<T>, c: seq<T>)
    ensures (a + b) + c == a + (b + c)
  {
  }

  /** Concatenation of a sequence of sequences. */
  function Flatten<T>(xss: seq<seq<T>>): (r: seq<T>)
  {
    if |xss| == 0 then [] else xss[0] + Flatten(xss[1..])
  }

  lemma FlattenAppend<T>(xss: seq<seq<T>>, yss: seq<seq<T>>)
    ensures Flatten(xss + yss) == Flatten(xss) + Flatten(yss)
  {
    if |xss| > 0 {
      assert (xss + yss)[1..] == xss[1..] + yss;
      FlattenAppend(xss[1..], yss);
    } else {
      assert xss + yss == yss;
    }
  }

  predicate AllNonEmpty(xs: seq<string>)
  {
    forall k :: 0 <= k < |xs| ==> xs[k] != ""
  }

  /** `[x for x in xs if x]`: the entries that are not empty, in order. */
  function KeepNonEmpty(xs: seq<string>): (r: seq<string>)
    ensures AllNonEmpty(r)
    ensures |r| <= |xs|
    ensures forall k :: 0 <= k < |r| ==> r[k] in xs
  {
    if |xs| == 0 then []
    else (if xs[0] == "" then [] else [xs[0]]) + KeepNonEmpty(xs[1..])
  }

  lemma {:induction false} KeepNonEmptyKeeps(xs: seq<string>, k: nat)
    requires k < |xs| && xs[k] != ""
    ensures |KeepNonEmpty(xs)| > 0
    decreases k
  {
    if k > 0 && xs[0] == "" {
      KeepNonEmptyKeeps(xs[1..], k - 1);
    }
  }

  lemma {:induction false} KeepNonEmptyStripped(xs: seq<string>)
    requires forall k :: 0 <= k < |xs| ==> IsStripped(xs[k])
    ensures forall k :: 0 <= k < |KeepNonEmpty(xs)| ==> IsStripped(KeepNonEmpty(xs)[k])
    decreases |xs|
  {
    if |xs| > 0 {
      KeepNonEmptyStripped(xs[1..]);
    }
  }

  /** Filtering a list with no empty entry changes nothing. */
  lemma {:induction false} KeepAllNonEmpty(xs: seq<string>)
    requires AllNonEmpty(xs)
    ensures KeepNonEmpty(xs) == xs
    decreases |xs|
  {
    if |xs| > 0 {
      KeepAllNonEmpty(xs[1..]);
      assert [xs[0]] + xs[1..] == xs;
    }
  }

  /** Filtering distributes over concatenation. */
  lemma {:induction false} KeepNonEmptyAppend(a: seq<string>, b: seq<string>)
    ensures KeepNonEmpty(a + b) == KeepNonEmpty(a) + KeepNonEmpty(b)
    decreases |a|
  {
    if |a| > 0 {
      KeepNonEmptyAppend(a[1..], b);
      assert (a + b)[1..] == a[1..] + b;
    } else {
      assert a + b == b;
    }
  }

  /** `[f(x) for x in xs if keep(x)]`. */
  function FilterMap<T, U>(xs: seq<T>, keep: T -> bool, f: T -> U): (r: seq<U>)
    ensures |r| <= |xs|
  {
    if |xs| == 0 then []
    else (if keep(xs[0]) then [f(xs[0])] else []) + FilterMap(xs[1..], keep, f)
  }

  lemma {:induction false} FilterMapAppend<T, U>(a: seq<T>, b: seq<T>, keep: T -> bool, f: T -> U)
    ensures FilterMap(a + b, keep, f) == FilterMap(a, keep, f) + FilterMap(b, keep, f)
    decreases |a|
  {
    if |a| == 0 {
      assert a + b == b;
    } else {
      assert (a + b)[1..] == a[1..] + b;
      FilterMapAppend(a[1..], b, keep, f);
      AppendAssoc(if keep(a[0]) then [f(a[0])] else [], FilterMap(a[1..], keep, f), FilterMap(b, keep, f));
    }
  }

  /** Every result is the image of a kept element. */
  lemma {:induction false} FilterMapFrom<T, U>(xs: seq<T>, keep: T -> bool, f: T -> U, j: nat)
    requires j < |FilterMap(xs, keep, f)|
    ensures exists k :: 0 <= k < |xs| && keep(xs[k]) && FilterMap(xs, keep, f)[j] == f(xs[k])
    decreases |xs|
  {
    var head := if keep(xs[0]) then [f(xs[0])] else [];
    var rest := FilterMap(xs[1..], keep, f);
    assert FilterMap(xs, keep, f) == head + rest;
    if j >= |head| {
      FilterMapFrom(xs[1..], keep, f, j - |head|);
      var k :| 0 <= k < |xs[1..]| && keep(xs[1..][k]) && rest[j - |head|] == f(xs[1..][k]);
      assert xs[1..][k] == xs[k + 1];
    }
  }

  /** The image of every kept element is in the result. */
  lemma {:induction false} FilterMapHas<T, U>(xs: seq<T>, keep: T -> bool, f: T -> U, k: nat)
    requires k < |xs| && keep(xs[k])
    ensures f(xs[k]) in FilterMap(xs, keep, f)
    decreases k
  {
    var head := if keep(xs[0]) then [f(xs[0])] else [];
    var rest := FilterMap(xs[1..], keep, f);
    assert FilterMap(xs, keep, f) == head + rest;
    if k > 0 {
      assert xs[1..][k - 1] == xs[k];
      FilterMapHas(xs[1..], keep, f, k - 1);
      var j :| 0 <= j < |rest| && rest[j] == f(xs[k]);
      assert (head + rest)[|head| + j] == rest[j];
    }
  }

  /** Nothing kept, nothing produced. */
  lemma {:induction false} FilterMapNone<T, U>(xs: seq<T>, keep: T -> bool, f: T -> U)
    requires forall k :: 0 <= k < |xs| ==> !keep(xs[k])
    ensures FilterMap(xs, keep, f) == []
    decreases |xs|
  {
    if |xs| > 0 {
      FilterMapNone(xs[1..], keep, f);
    }
  }

  lemma {:induction false} KeepNonEmptyHas(xs: seq<string>, k: nat)
    requires k < |xs| && xs[k] != ""
    ensures xs[k] in KeepNonEmpty(xs)
    decreases k
  {
    var head := if xs[0] == "" then [] else [xs[0]];
    assert KeepNonEmpty(xs) == head + KeepNonEmpty(xs[1..]);
    if k > 0 {
      assert xs[1..][k - 1] == xs[k];
      KeepNonEmptyHas(xs[1..], k - 1);
    }
  }

  predicate NoDuplicates<T(==)>(s: seq<T>)
  {
    forall a, b :: 0 <= a < b < |s| ==> s[a] != s[b]
  }

  /** The first occurrence in `s ++ t` of an element of `s` is its first occurrence in `s`. */
  lemma IndexOfAppend<T>(s: seq<T>, t: seq<T>, x: T)
    requires x in s
    ensures x in s + t && IndexOf(s + t, x) == IndexOf(s, x)
  {
    var i := IndexOf(s, x);
    assert (s + t)[i] == x;
    assert (s + t)[..i] == s[..i];
    IndexOfUnique(s + t, x, i);
  }

  lemma IndexOfUnique<T>(s: seq<T>, x: T, i: nat)
    requires i < |s| && s[i] == x && x !in s[..i]
    ensures IndexOf(s, x) == i
  {
    var j := IndexOf(s, x);
    forall k | 0 <= k < j
      ensures s[k] != x
    {
      assert s[..j][k] == s[k];
    }
    forall k | 0 <= k < i
      ensures s[k] != x
    {
      assert s[..i][k] == s[k];
    }
  }

  /** The distinct elements of `xs`, each once, kept at its first appearance. */
  function Dedup<T(==, !new)>(xs: seq<T>): (r: seq<T>)
    ensures forall x :: x in r <==> x in xs
    ensures NoDuplicates(r)
  {
    if |xs| == 0 then []
    else
      var init := xs[..|xs| - 1];
      var x := xs[|xs| - 1];
      var d := Dedup(init);
      assert xs == init + [x];
      if x in d then d else d + [x]
  }

  /** `Dedup` lists the elements in the order of their first occurrence. */
  lemma {:induction false} DedupFirstAppearance<T(!new)>(xs: seq<T>)
    ensures forall a, b :: 0 <= a < b < |Dedup(xs)| ==> IndexOf(xs, Dedup(xs)[a]) < IndexOf(xs, Dedup(xs)[b])
  {
    if |xs| > 0 {
      var init := xs[..|xs| - 1];
      var x := xs[|xs| - 1];
      var d := Dedup(init);
      DedupFirstAppearance(init);
      assert xs == init + [x];
      forall y | y in init
        ensures IndexOf(xs, y) == IndexOf(init, y) && IndexOf(init, y) < |init|
      {
        IndexOfAppend(init, [x], y);
      }
      if x !in d {
        IndexOfUnique(xs, x, |init|);
      }
    }
  }

  /** Position of the first occurrence of `x`; `list.index(x)`. */
  function IndexOf<T(==)>(s: seq<T>, x: T): (i: nat)
    requires x in s
    ensures i < |s| && s[i] == x && x !in s[..i]
  {
    if s[0] == x then 0
    else
      var j := IndexOf(s[1..], x);
      assert s[..j + 1] == [s[0]] + s[1..][..j];
      j + 1
  }

  /** Python's `list.remove(x)`: drops the first occurrence of `x`. */
  function RemoveFirst<T(==)>(s: seq<T>, x: T): (r: seq<T>)
    requires x in s
    ensures multiset(r) == multiset(s) - multiset{x}
    ensures forall y :: y in r ==> y in s
  {
    var i := IndexOf(s, x);
    assert s == s[..i] + [x] + s[i + 1..];
    s[..i] + s[i + 1..]
  }

  /** Normalises a Python slice bound: negative counts from the end, then clamped. */
  function SliceIndex(i: int, n: nat): (r: nat)
    ensures r <= n
    ensures 0 <= i <= n ==> r == i
  {
    if i < 0 then (if i + n < 0 then 0 else i + n)
    else if i > n then n
    else i
  }

  /** Python's `s[a:b]` for any integers `a` and `b`. */
  function PySlice<T>(s: seq<T>, a: int, b: int): (r: seq<T>)
    ensures 0 <= a <= b <= |s| ==> r == s[a..b]
    ensures |r| <= |s|
    ensures forall k :: 0 <= k < |r| ==> r[k] in s
  {
    var i := SliceIndex(a, |s|);
    var j := SliceIndex(b, |s|);
    if i < j then s[i..j] else []
  }

  /** Python's `<=` on strings: lexicographic by character code. */
  predicate StrLe(a: string, b: string)
  {
    |a| == 0 || (|b| > 0 && (a[0] < b[0] || (a[0] == b[0] && StrLe(a[1..], b[1..]))))
  }

  lemma {:induction false} StrLeTotal(a: string, b: string)
    ensures StrLe(a, b) || StrLe(b, a)
  {
    if |a| > 0 && |b| > 0 && a[0] == b[0] {
      StrLeTotal(a[1..], b[1..]);
    }
  }

  lemma {:induction false} StrLeTrans(a: string, b: string, c: string)
    requires StrLe(a, b) && StrLe(b, c)
    ensures StrLe(a, c)
  {
    if |a| > 0 && |b| > 0 && |c| > 0 && a[0] == b[0] && b[0] == c[0] {
      StrLeTrans(a[1..], b[1..], c[1..]);
    }
  }

  lemma {:induction false} StrLeAntisym(a: string, b: string)
    requires StrLe(a, b) && StrLe(b, a)
    ensures a == b
  {
    if |a| > 0 && |b| > 0 {
      StrLeAntisym(a[1..], b[1..]);
      assert a == [a[0]] + a[1..] && b == [b[0]] + b[1..];
    }
  }
  /** `max(a, b)` and `min(a, b)` on floats, modelled as reals. */
  function MaxR(a: real, b: real): real { if a >= b then a else b }
  function MinR(a: real, b: real): real { if a <= b then a else b }

  /** Smallest element; `min()` of a non-empty list. */
  function MinOf(xs: seq<int>): (m: int)
    requires |xs| > 0
    ensures m in xs
    ensures forall k :: 0 <= k < |xs| ==> m <= xs[k]
  {
    if |xs| == 1 then xs[0]
    else
      var t := MinOf(xs[1..]);
      assert t in xs;
      if xs[0] <= t then xs[0] else t
  }

  /** Largest element; `max()` of a non-empty list. */
  function MaxOf(xs: seq<int>): (m: int)
    requires |xs| > 0
    ensures m in xs
    ensures forall k :: 0 <= k < |xs| ==> xs[k] <= m
  {
    if |xs| == 1 then xs[0]
    else
      var t := MaxOf(xs[1..]);
      assert t in xs;
      if xs[0] >= t then xs[0] else t
  }

  /** Decimal rendering of a natural number, as `str(n)`. */
  function NatToString(n: nat): (r: string)
    ensures |r| >= 1
    ensures forall k :: 0 <= k < |r| ==> '0' <= r[k] <= '9'
  {
    if n < 10 then [DigitChar(n)]
    else NatToString(n / 10) + [DigitChar(n % 10)]
  }

  function DigitChar(d: nat): (c: char)
    requires d < 10
    ensures '0' <= c <= '9'
  {
    ('0' as int + d) as char
  }

  /** `str(i)` for any integer. */
  function IntToString(i: int): (r: string)
  {
    if i < 0 then "-" + NatToString(-i) else NatToString(i)
  }
}
