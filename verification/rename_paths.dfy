/**
 * The maintenance script that renames a path prefix in every stored
 * point: the two prefix prompts, the selection of points by prefix, the
 * sorted list of distinct paths shown for confirmation, the preview of
 * old and new paths, and the rewrite of `file_path` in each selected
 * payload.
 *
 * Points are given as their parsed payloads; the prompts as the raw text
 * typed.
 */
module RenamePaths {
  import opened Wrappers
  import PyStr
  import QdrantSchema

  // ---------------------------------------------------------------------
  // Prompts
  // ---------------------------------------------------------------------

  /** The source prefix: the typed text stripped, or nothing (ask again) when that is empty. */
  function ReadSourcePrefix(raw: string): (r: Option<string>)
    ensures r.Some? <==> |PyStr.Strip(raw)| > 0
    ensures r.Some? ==> |r.value| > 0 && PyStr.IsStripped(r.value)
  {
    var s := PyStr.Strip(raw);
    if |s| == 0 then None else Some(s)
  }

  datatype TargetCheck =
    | Accepted(prefix: string)
    | EmptyTarget      // "cannot be empty", ask again
    | SameAsSource     // "same as source prefix", ask again

  /** The target prompt: the typed text stripped, refused when empty or equal to the source. */
  function CheckTarget(raw: string, source: string): (r: TargetCheck)
    ensures r == EmptyTarget <==> |PyStr.Strip(raw)| == 0
    ensures r == SameAsSource <==> |PyStr.Strip(raw)| > 0 && PyStr.Strip(raw) == source
    ensures r.Accepted? ==> r.prefix == PyStr.Strip(raw) && |r.prefix| > 0 && r.prefix != source
  {
    var t := PyStr.Strip(raw);
    if |t| == 0 then EmptyTarget
    else if t == source then SameAsSource
    else Accepted(t)
  }

  // ---------------------------------------------------------------------
  // Selection and the path list
  // ---------------------------------------------------------------------

  /** A point is renamed when its path starts with the source prefix. */
  predicate Selects(source: string, path: string)
  {
    PyStr.StartsWith(path, source)
  }

  /** The matching points, in scroll order. */
  function Selected(points: seq<QdrantSchema.Payload>, source: string): (r: seq<QdrantSchema.Payload>)
    ensures |r| <= |points|
    ensures forall p :: p in r <==> p in points && Selects(source, p.filePath)
  {
    if |points| == 0 then []
    else
      var rest := Selected(points[1..], source);
      assert forall p :: p in points <==> p == points[0] || p in points[1..];
      if Selects(source, points[0].filePath) then [points[0]] + rest else rest
  }

  /** Python's `<` on strings. */
  predicate StrLt(a: string, b: string)
  {
    PyStr.StrLe(a, b) && a != b
  }

  /** Ascending without repeats, as `sorted(set(...))` lists. */
  predicate StrictlySorted(s: seq<string>)
  {
    forall i, j :: 0 <= i < j < |s| ==> StrLt(s[i], s[j])
  }

  /** A value below every element of a strictly sorted list extends it at the front. */
  lemma ConsSorted(a: string, t: seq<string>)
    requires StrictlySorted(t)
    requires forall y :: y in t ==> StrLt(a, y)
    ensures StrictlySorted([a] + t)
  {
    var s := [a] + t;
    forall i, j | 0 <= i < j < |s|
      ensures StrLt(s[i], s[j])
    {
      if i > 0 {
        assert s[i] == t[i - 1] && s[j] == t[j - 1];
      } else {
        assert s[j] in t;
      }
    }
  }

  /** `x` below the head of a strictly sorted list is below every element. */
  lemma BelowHead(x: string, s: seq<string>)
    requires StrictlySorted(s) && |s| > 0 && StrLt(x, s[0])
    ensures forall y :: y in s ==> StrLt(x, y)
  {
    forall y | y in s
      ensures StrLt(x, y)
    {
      var j :| 0 <= j < |s| && s[j] == y;
      if j > 0 {
        PyStr.StrLeTrans(x, s[0], y);
        if x == y {
          PyStr.StrLeAntisym(s[0], y);
        }
      }
    }
  }

  /** `x` added to a strictly sorted list, in its place. */
  function Insert(x: string, s: seq<string>): (r: seq<string>)
    requires StrictlySorted(s)
    ensures StrictlySorted(r)
    ensures forall y :: y in r <==> y == x || y in s
    decreases |s|
  {
    if |s| == 0 then [x]
    else if x == s[0] then s
    else if PyStr.StrLe(x, s[0]) then
      BelowHead(x, s);
      ConsSorted(x, s);
      [x] + s
    else
      var t := Insert(x, s[1..]);
      PyStr.StrLeTotal(x, s[0]);
      HeadBelowTail(s);
      ConsSorted(s[0], t);
      assert forall y :: y in s <==> y == s[0] || y in s[1..];
      [s[0]] + t
  }

  lemma HeadBelowTail(s: seq<string>)
    requires StrictlySorted(s) && |s| > 0
    ensures forall y :: y in s[1..] ==> StrLt(s[0], y)
  {
    forall y | y in s[1..]
      ensures StrLt(s[0], y)
    {
      var j :| 0 <= j < |s[1..]| && s[1..][j] == y;
      assert s[j + 1] == y;
    }
  }

  /** `sorted(set(paths))`. */
  function SortedSet(paths: seq<string>): (r: seq<string>)
    ensures StrictlySorted(r)
    ensures forall y :: y in r <==> y in paths
  {
    if |paths| == 0 then []
    else
      var init := paths[..|paths| - 1];
      assert forall y :: y in paths <==> y in init || y == paths[|paths| - 1];
      Insert(paths[|paths| - 1], SortedSet(init))
  }

  /** Two strictly sorted lists with the same elements are the same list. */
  lemma {:induction false} SortedSetUnique(a: seq<string>, b: seq<string>)
    requires StrictlySorted(a) && StrictlySorted(b)
    requires forall y :: y in a <==> y in b
    ensures a == b
    decreases |a|
  {
    SameElementsEmpty(a, b);
    if |a| > 0 {
      HeadsAgree(a, b);
      HeadBelowTail(a);
      HeadBelowTail(b);
      forall y
        ensures y in a[1..] <==> y in b[1..]
      {
        assert y in a <==> y == a[0] || y in a[1..];
        assert y in b <==> y == b[0] || y in b[1..];
      }
      TailSorted(a);
      TailSorted(b);
      SortedSetUnique(a[1..], b[1..]);
      assert a == [a[0]] + a[1..] && b == [b[0]] + b[1..];
    }
  }

  lemma SameElementsEmpty(a: seq<string>, b: seq<string>)
    requires forall y :: y in a <==> y in b
    ensures |a| == 0 <==> |b| == 0
  {
    if |a| > 0 {
      assert a[0] in b;
    }
    if |b| > 0 {
      assert b[0] in a;
    }
  }

  lemma HeadsAgree(a: seq<string>, b: seq<string>)
    requires StrictlySorted(a) && StrictlySorted(b) && |a| > 0 && |b| > 0
    requires forall y :: y in a <==> y in b
    ensures a[0] == b[0]
  {
    assert a[0] in b && b[0] in a;
    var i :| 0 <= i < |b| && b[i] == a[0];
    var j :| 0 <= j < |a| && a[j] == b[0];
    if a[0] != b[0] {
      assert StrLt(b[0], b[i]) && StrLt(a[0], a[j]);
      PyStr.StrLeAntisym(a[0], b[0]);
    }
  }

  lemma TailSorted(s: seq<string>)
    requires StrictlySorted(s) && |s| > 0
    ensures StrictlySorted(s[1..])
  {
    forall i, j | 0 <= i < j < |s[1..]|
      ensures StrLt(s[1..][i], s[1..][j])
    {
      assert s[1..][i] == s[i + 1] && s[1..][j] == s[j + 1];
    }
  }

  /** The listed paths depend only on which paths occur, not on their order or repeats. */
  lemma SortedSetOrderFree(p: seq<string>, q: seq<string>)
    requires forall y :: y in p <==> y in q
    ensures SortedSet(p) == SortedSet(q)
  {
    SortedSetUnique(SortedSet(p), SortedSet(q));
  }

  /** A strictly sorted list is its own `sorted(set(...))`. */
  lemma SortedSetOfSorted(s: seq<string>)
    requires StrictlySorted(s)
    ensures SortedSet(s) == s
  {
    SortedSetUnique(SortedSet(s), s);
  }

  /** The paths listed for confirmation: one per distinct path of a matching point. */
  function UniquePaths(points: seq<QdrantSchema.Payload>, source: string): (r: seq<string>)
    ensures StrictlySorted(r)
    ensures forall y :: y in r <==> exists p :: p in points && Selects(source, p.filePath) && p.filePath == y
  {
    var sel := Selected(points, source);
    var paths := seq(|sel|, i requires 0 <= i < |sel| => sel[i].filePath);
    assert forall y :: y in paths <==> exists p :: p in sel && p.filePath == y by {
      forall y
        ensures y in paths <==> exists p :: p in sel && p.filePath == y
      {
        if y in paths {
          var i :| 0 <= i < |paths| && paths[i] == y;
          assert sel[i] in sel && sel[i].filePath == y;
        }
        if exists p :: p in sel && p.filePath == y {
          var p :| p in sel && p.filePath == y;
          var i :| 0 <= i < |sel| && sel[i] == p;
          assert paths[i] == y;
        }
      }
    }
    SortedSet(paths)
  }

  // ---------------------------------------------------------------------
  // The rewrite
  // ---------------------------------------------------------------------

  /** `target + path[len(source):]`. */
  function NewPath(source: string, target: string, path: string): (r: string)
  {
    target + PyStr.PySlice(path, |source|, |path|)
  }

  /** A selected path keeps everything after the prefix; only the prefix is replaced. */
  lemma NewPathShape(source: string, target: string, path: string)
    requires Selects(source, path)
    ensures var r := NewPath(source, target, path);
      PyStr.StartsWith(r, target) && r[|target|..] == path[|source|..]
      && |r| == |path| - |source| + |target|
  {
    var r := NewPath(source, target, path);
    assert PyStr.PySlice(path, |source|, |path|) == path[|source|..];
    assert r[|target|..] == path[|source|..];
  }

  /** Renaming back with the prefixes swapped restores the path. */
  lemma RenameBack(source: string, target: string, path: string)
    requires Selects(source, path)
    ensures Selects(target, NewPath(source, target, path))
    ensures NewPath(target, source, NewPath(source, target, path)) == path
  {
    var r := NewPath(source, target, path);
    NewPathShape(source, target, path);
    NewPathShape(target, source, r);
    assert path == path[..|source|] + path[|source|..];
  }

  /** Distinct selected paths stay distinct: no two files are merged. */
  lemma RenameInjective(source: string, target: string, a: string, b: string)
    requires Selects(source, a) && Selects(source, b)
    requires NewPath(source, target, a) == NewPath(source, target, b)
    ensures a == b
  {
    RenameBack(source, target, a);
    RenameBack(source, target, b);
  }

  /** One line of the preview. */
  datatype Change = Change(oldPath: string, newPath: string)

  /** The preview: each listed path with its new path. */
  function PathChanges(paths: seq<string>, source: string, target: string): (r: seq<Change>)
    ensures |r| == |paths|
    ensures forall i :: 0 <= i < |r| ==> r[i].oldPath == paths[i]
  {
    seq(|paths|, i requires 0 <= i < |paths| => Change(paths[i], NewPath(source, target, paths[i])))
  }

  /** The previewed new paths of distinct selected paths are themselves distinct. */
  lemma PathChangesDistinct(paths: seq<string>, source: string, target: string)
    requires PyStr.NoDuplicates(paths)
    requires forall i :: 0 <= i < |paths| ==> Selects(source, paths[i])
    ensures var r := PathChanges(paths, source, target);
      forall i, j :: 0 <= i < j < |r| ==> r[i].newPath != r[j].newPath
  {
    var r := PathChanges(paths, source, target);
    forall i, j | 0 <= i < j < |r|
      ensures r[i].newPath != r[j].newPath
    {
      if r[i].newPath == r[j].newPath {
        RenameInjective(source, target, paths[i], paths[j]);
      }
    }
  }

  /** The payload written back for one point: the same payload with the new path. */
  function Rename(p: QdrantSchema.Payload, source: string, target: string): (r: QdrantSchema.Payload)
    ensures r.(filePath := p.filePath) == p
    ensures Selects(source, p.filePath) ==> Selects(target, r.filePath)
  {
    var r := p.(filePath := NewPath(source, target, p.filePath));
    if Selects(source, p.filePath) then RenameBack(source, target, p.filePath); r else r
  }

  /** The dump written to the store differs from the point's dump in `file_path` only. */
  lemma RenameDump(p: QdrantSchema.Payload, source: string, target: string)
    ensures QdrantSchema.Dump(Rename(p, source, target))
      == QdrantSchema.Dump(p)[QdrantSchema.Name(QdrantSchema.FilePath) := QdrantSchema.Str(NewPath(source, target, p.filePath))]
  {
    DumpWithPath(p, NewPath(source, target, p.filePath));
  }

  /** `model_dump` after setting the path is the dump with `file_path` overwritten. */
  lemma DumpWithPath(p: QdrantSchema.Payload, path: string)
    ensures QdrantSchema.Dump(p.(filePath := path))
      == QdrantSchema.Dump(p)[QdrantSchema.Name(QdrantSchema.FilePath) := QdrantSchema.Str(path)]
  {
    var a := QdrantSchema.Dump(p.(filePath := path));
    var b := QdrantSchema.Dump(p)[QdrantSchema.Name(QdrantSchema.FilePath) := QdrantSchema.Str(path)];
    assert a.Keys == b.Keys by {
      forall k
        ensures k in a <==> k in b
      {
        if k in a || k in b {
          assert QdrantSchema.Name(QdrantSchema.FieldOf(k).value) == k;
        }
      }
    }
    forall k | k in a
      ensures a[k] == b[k]
    {
      var f := QdrantSchema.FieldOf(k).value;
      if f != QdrantSchema.FilePath {
        QdrantSchema.NamesDistinct(f, QdrantSchema.FilePath);
      }
    }
  }

  /** Step 4: every matching point, in scroll order, with its new payload. */
  function RenameAll(points: seq<QdrantSchema.Payload>, source: string, target: string): (r: seq<QdrantSchema.Payload>)
    ensures |r| == |Selected(points, source)|
    ensures forall i :: 0 <= i < |r| ==> Selects(target, r[i].filePath)
  {
    var sel := Selected(points, source);
    seq(|sel|, i requires 0 <= i < |sel| => Rename(sel[i], source, target))
  }

  /** Renaming the renamed points back, with the prefixes swapped, restores the matching points. */
  lemma RenameAllBack(points: seq<QdrantSchema.Payload>, source: string, target: string)
    ensures RenameAll(RenameAll(points, source, target), target, source) == Selected(points, source)
  {
    var sel := Selected(points, source);
    var once := RenameAll(points, source, target);
    SelectedAll(once, target);
    forall i | 0 <= i < |sel|
      ensures Rename(once[i], target, source) == sel[i]
    {
      RenameBack(source, target, sel[i].filePath);
    }
  }

  /** When every point matches, all are selected, in order. */
  lemma {:induction false} SelectedAll(points: seq<QdrantSchema.Payload>, source: string)
    requires forall i :: 0 <= i < |points| ==> Selects(source, points[i].filePath)
    ensures Selected(points, source) == points
  {
    if |points| > 0 {
      SelectedAll(points[1..], source);
      assert [points[0]] + points[1..] == points;
    }
  }
}
