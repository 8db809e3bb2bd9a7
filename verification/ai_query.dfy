/**
 * The query side of the answer pipeline: the point hash that names a
 * retrieved chunk in the context, the resolution of the hash designators
 * the model cites back into reference infos, and the Markdown answer text
 * with its numbered references.
 *
 * The SHA-1 digest and the reference-info formatter are parameters.
 */
module AiQuery {
  import opened Wrappers
  import opened PyStr

  /** A point payload: each field name mapped to the `str()` of its value. */
  type Payload = map<string, string>

  /** A retrieved point; its payload may be missing. */
  datatype Point = Point(payload: Option<Payload>)

  datatype AnswerItem = AnswerItem(answer: string, refs: seq<string>)

  datatype QueryResult = QueryResult(questionRephrased: string, answers: seq<AnswerItem>, conclusion: string,
                                     followUps: seq<string>, isRejected: bool, rejectionReason: string)

  // ---------------------------------------------------------------------
  // The point hash

  /**
   * The field renderings the hash covers, in order; the two ranges count
   * as `""` when absent. None when a mandatory field is missing (the
   * source raises `KeyError`).
   */
  function HashFields(p: Payload): (r: Option<seq<string>>)
    ensures r.Some? ==> |r.value| == 6
  {
    if "chunk_index" in p && "chunks_total" in p && "file_path" in p && "file_mtime" in p then
      Some([p["chunk_index"], p["chunks_total"], p["file_path"], p["file_mtime"],
            if "line_range" in p then p["line_range"] else "",
            if "page_range" in p then p["page_range"] else ""])
    else None
  }

  /** `get_point_hash`: the first 16 characters of the digest of the concatenated fields. */
  function PointHash(p: Payload, digest: string -> string): (r: Option<string>)
    ensures r.Some? <==> HashFields(p).Some?
    ensures r.Some? ==> |r.value| <= 16
  {
    match HashFields(p)
    case None => None
    case Some(fields) => Some(PySlice(digest(Join(fields, "")), 0, 16))
  }

  /** Two payloads agree on a field: both lack it or both hold the same value. */
  predicate SameField(p: Payload, q: Payload, k: string)
  {
    (k in p <==> k in q) && (k in p ==> p[k] == q[k])
  }

  /** The hash depends on the six hashed fields only. */
  lemma SameFieldsSameHash(p: Payload, q: Payload, digest: string -> string)
    requires SameField(p, q, "chunk_index") && SameField(p, q, "chunks_total")
    requires SameField(p, q, "file_path") && SameField(p, q, "file_mtime")
    requires SameField(p, q, "line_range") && SameField(p, q, "page_range")
    ensures PointHash(p, digest) == PointHash(q, digest)
  {
    assert HashFields(p) == HashFields(q);
  }

  /** Setting any field outside the six hashed ones leaves the hash as it was. */
  lemma OtherFieldIgnored(p: Payload, k: string, v: string, digest: string -> string)
    requires k != "chunk_index" && k != "chunks_total" && k != "file_path" && k != "file_mtime"
    requires k != "line_range" && k != "page_range"
    ensures PointHash(p[k := v], digest) == PointHash(p, digest)
  {
    SameFieldsSameHash(p[k := v], p, digest);
  }

  /** A missing range hashes like an empty one. */
  lemma MissingRangeIsEmpty(p: Payload, digest: string -> string)
    requires "line_range" !in p
    ensures PointHash(p, digest) == PointHash(p["line_range" := ""], digest)
  {
    assert HashFields(p) == HashFields(p["line_range" := ""]);
  }

  // ---------------------------------------------------------------------
  // Hash designators

  predicate IsHexChar(c: char)
  {
    '0' <= c <= '9' || 'a' <= c <= 'f' || 'A' <= c <= 'F'
  }

  /** Exactly 16 hexadecimal digits, in either case. */
  predicate IsHashCore(s: string)
  {
    |s| == 16 && forall i :: 0 <= i < |s| ==> IsHexChar(s[i])
  }

  /** How the context names a chunk: `<<< hash >>>`. */
  function Designator(h: string): (r: string)
    ensures |r| == |h| + 8
  {
    "<<< " + h + " >>>"
  }

  /**
   * `extract_hash`: the core of a `<<< … >>>` designator when it is 16 hex
   * digits, otherwise the stripped reference.
   */
  function ExtractHash(ref: string): (r: string)
    ensures r == Strip(ref) || (IsHashCore(r) && StartsWith(Strip(ref), "<<< ") && EndsWith(Strip(ref), " >>>"))
  {
    var s := Strip(ref);
    if StartsWith(s, "<<< ") && EndsWith(s, " >>>") then
      var core := Strip(PySlice(s, 4, -4));
      if IsHashCore(core) then core else s
    else s
  }

  /** Extracting from the designator of a hash gives the hash back. */
  lemma ExtractDesignator(h: string)
    requires IsHashCore(h)
    ensures ExtractHash(Designator(h)) == h
  {
    var d := Designator(h);
    assert d[0] == '<' && d[|d| - 1] == '>';
    StripOfStripped(d);
    assert PySlice(d, 4, -4) == h;
    assert h[0] == d[4] && h[15] == d[19];
    StripOfStripped(h);
  }

  /** A reference that is not a designator comes back stripped. */
  lemma ExtractPlain(ref: string)
    requires !StartsWith(Strip(ref), "<<< ")
    ensures ExtractHash(ref) == Strip(ref)
  {
  }

  // ---------------------------------------------------------------------
  // Resolving designators

  /**
   * `points_by_hash`: each hash mapped to the payload of the last point
   * carrying it; points without payload are skipped. None when a payload
   * lacks a hashed mandatory field.
   */
  function PointsByHash(points: seq<Point>, digest: string -> string): (r: Option<map<string, Payload>>)
  {
    if |points| == 0 then Some(map[])
    else
      var last := points[|points| - 1];
      match PointsByHash(points[..|points| - 1], digest)
      case None => None
      case Some(m) =>
        if last.payload.None? then Some(m)
        else
          match PointHash(last.payload.value, digest)
          case None => None
          case Some(h) => Some(m[h := last.payload.value])
  }

  /** A point that would raise while hashing. */
  predicate Unhashable(p: Point, digest: string -> string)
  {
    p.payload.Some? && PointHash(p.payload.value, digest).None?
  }

  /** The map exists exactly when no point with a payload lacks a mandatory field. */
  lemma {:induction false} PointsByHashFails(points: seq<Point>, digest: string -> string)
    ensures PointsByHash(points, digest).None? <==> exists i :: 0 <= i < |points| && Unhashable(points[i], digest)
  {
    if |points| > 0 {
      var init := points[..|points| - 1];
      PointsByHashFails(init, digest);
      assert forall i :: 0 <= i < |init| ==> init[i] == points[i];
    }
  }

  /** The keys are exactly the hashes of the points. */
  lemma {:induction false} PointsByHashKeys(points: seq<Point>, digest: string -> string)
    requires PointsByHash(points, digest).Some?
    ensures forall h :: h in PointsByHash(points, digest).value <==>
      exists i :: 0 <= i < |points| && HashOf(points[i], digest) == Some(h)
  {
    if |points| > 0 {
      var init := points[..|points| - 1];
      var last := points[|points| - 1];
      PointsByHashKeys(init, digest);
      var m := PointsByHash(init, digest).value;
      var full := PointsByHash(points, digest).value;
      assert full == if HashOf(last, digest).None? then m else m[HashOf(last, digest).value := last.payload.value];
      forall h | h in full
        ensures exists i :: 0 <= i < |points| && HashOf(points[i], digest) == Some(h)
      {
        if h in m {
          var i :| 0 <= i < |init| && HashOf(init[i], digest) == Some(h);
          assert init[i] == points[i];
        } else {
          assert HashOf(points[|points| - 1], digest) == Some(h);
        }
      }
      forall h, i | 0 <= i < |points| && HashOf(points[i], digest) == Some(h)
        ensures h in full
      {
        if i < |init| {
          assert init[i] == points[i];
        }
      }
    }
  }

  /** Each hash maps to the payload of the last point carrying it. */
  lemma {:induction false} PointsByHashLastWins(points: seq<Point>, digest: string -> string)
    requires PointsByHash(points, digest).Some?
    ensures var m := PointsByHash(points, digest).value;
      forall i :: (0 <= i < |points| && HashOf(points[i], digest).Some?
        && (forall j :: i < j < |points| ==> HashOf(points[j], digest) != HashOf(points[i], digest)))
        ==> HashOf(points[i], digest).value in m && m[HashOf(points[i], digest).value] == points[i].payload.value
  {
    if |points| > 0 {
      var init := points[..|points| - 1];
      PointsByHashLastWins(init, digest);
      assert forall i :: 0 <= i < |init| ==> init[i] == points[i];
    }
  }

  /** The hash of a point with a payload and all mandatory fields. */
  function HashOf(p: Point, digest: string -> string): (r: Option<string>)
    ensures r.Some? ==> p.payload.Some?
  {
    if p.payload.None? then None else PointHash(p.payload.value, digest)
  }

  /** One cited reference: the info of the point its hash names, or `??? (hash)`. */
  function ResolveRef(ref: string, byHash: map<string, Payload>, info: Payload -> string): (r: string)
  {
    var h := ExtractHash(ref);
    if h in byHash then info(byHash[h]) else "??? (" + h + ")"
  }

  /**
   * `format_query_references`: every cited reference resolved in place;
   * everything else is left as it was.
   */
  function FormatQueryReferences(q: QueryResult, points: seq<Point>, digest: string -> string,
                                 info: Payload -> string): (r: Option<QueryResult>)
    ensures r.Some? <==> PointsByHash(points, digest).Some?
    ensures r.Some? ==> |r.value.answers| == |q.answers| && r.value == q.(answers := r.value.answers)
    ensures r.Some? ==> forall i :: 0 <= i < |q.answers| ==>
      (r.value.answers[i].answer == q.answers[i].answer && |r.value.answers[i].refs| == |q.answers[i].refs|)
  {
    match PointsByHash(points, digest)
    case None => None
    case Some(m) =>
      Some(q.(answers := seq(|q.answers|, i requires 0 <= i < |q.answers| =>
        q.answers[i].(refs := seq(|q.answers[i].refs|, j requires 0 <= j < |q.answers[i].refs| =>
          ResolveRef(q.answers[i].refs[j], m, info))))))
  }

  /**
   * A reference whose designator names a point becomes that point's info;
   * one that names no point becomes `??? (hash)`.
   */
  lemma ResolvedRefs(q: QueryResult, points: seq<Point>, digest: string -> string, info: Payload -> string,
                     i: nat, j: nat)
    requires FormatQueryReferences(q, points, digest, info).Some?
    requires i < |q.answers| && j < |q.answers[i].refs|
    ensures var h := ExtractHash(q.answers[i].refs[j]);
      var r := FormatQueryReferences(q, points, digest, info).value.answers[i].refs[j];
      && ((forall k :: 0 <= k < |points| ==> HashOf(points[k], digest) != Some(h)) ==> r == "??? (" + h + ")")
      && (forall k :: 0 <= k < |points| && HashOf(points[k], digest) == Some(h)
           && (forall l :: k < l < |points| ==> HashOf(points[l], digest) != Some(h))
           ==> r == info(points[k].payload.value))
  {
    PointsByHashKeys(points, digest);
    PointsByHashLastWins(points, digest);
  }

  /**
   * With a digest that yields lower-case hex, as SHA-1's `hexdigest` does,
   * a designator with an upper-case digit never names a point.
   */
  lemma UpperCaseNeverMatches(q: QueryResult, points: seq<Point>, digest: string -> string,
                              info: Payload -> string, i: nat, j: nat, c: nat)
    requires forall s :: forall k :: 0 <= k < |digest(s)| ==> !('A' <= digest(s)[k] <= 'Z')
    requires FormatQueryReferences(q, points, digest, info).Some?
    requires i < |q.answers| && j < |q.answers[i].refs|
    requires c < |ExtractHash(q.answers[i].refs[j])| && 'A' <= ExtractHash(q.answers[i].refs[j])[c] <= 'Z'
    ensures var h := ExtractHash(q.answers[i].refs[j]);
      FormatQueryReferences(q, points, digest, info).value.answers[i].refs[j] == "??? (" + h + ")"
  {
    var h := ExtractHash(q.answers[i].refs[j]);
    forall k | 0 <= k < |points|
      ensures HashOf(points[k], digest) != Some(h)
    {
      var hk := HashOf(points[k], digest);
      if hk.Some? {
        var d := digest(Join(HashFields(points[k].payload.value).value, ""));
        assert hk.value == PySlice(d, 0, 16);
        assert c < |hk.value| ==> hk.value[c] == d[c];
      }
    }
    ResolvedRefs(q, points, digest, info, i, j);
  }

  // ---------------------------------------------------------------------
  // The answer text

  /** Every cited reference, answer by answer. */
  function AllRefs(answers: seq<AnswerItem>): (r: seq<string>)
    ensures forall x :: x in r <==> exists i :: 0 <= i < |answers| && x in answers[i].refs
  {
    if |answers| == 0 then []
    else
      var init := answers[..|answers| - 1];
      assert forall i :: 0 <= i < |init| ==> init[i] == answers[i];
      AllRefs(init) + answers[|answers| - 1].refs
  }

  /** `all_refs_ordered`: the distinct references in order of first citation. */
  function RefOrder(q: QueryResult): (r: seq<string>)
  {
    Dedup(AllRefs(q.answers))
  }

  /** `ref_map[ref]`: the 1-based position of a reference in the citation order. */
  function RefNumber(order: seq<string>, ref: string): (n: nat)
    requires ref in order
    ensures 1 <= n <= |order| && order[n - 1] == ref
  {
    IndexOf(order, ref) + 1
  }

  /** Distinct references get distinct numbers 1..k, the k-th reference number k. */
  lemma RefNumbersByFirstCitation(q: QueryResult)
    ensures forall k :: 0 <= k < |RefOrder(q)| ==> RefNumber(RefOrder(q), RefOrder(q)[k]) == k + 1
    ensures forall x :: x in RefOrder(q) <==> exists i :: 0 <= i < |q.answers| && x in q.answers[i].refs
  {
    var order := RefOrder(q);
    forall k | 0 <= k < |order|
      ensures RefNumber(order, order[k]) == k + 1
    {
      assert order[k] !in order[..k];
      IndexOfUnique(order, order[k], k);
    }
  }

  /** A reference cited earlier for the first time gets the smaller number. */
  lemma RefNumbersFollowFirstCitation(q: QueryResult, x: string, y: string)
    requires x in RefOrder(q) && y in RefOrder(q)
    ensures x in AllRefs(q.answers) && y in AllRefs(q.answers)
    ensures RefNumber(RefOrder(q), x) < RefNumber(RefOrder(q), y)
      <==> IndexOf(AllRefs(q.answers), x) < IndexOf(AllRefs(q.answers), y)
  {
    var all := AllRefs(q.answers);
    var order := RefOrder(q);
    DedupFirstAppearance(all);
    var a := RefNumber(order, x) - 1;
    var b := RefNumber(order, y) - 1;
    if a > b {
      assert IndexOf(all, order[b]) < IndexOf(all, order[a]);
    }
  }

  /** The numbers, ascending, of the references in `order` that `refs` cites. */
  function Markers(order: seq<string>, refs: seq<string>): (r: seq<nat>)
    ensures forall a, b :: 0 <= a < b < |r| ==> r[a] < r[b]
    ensures forall n :: n in r ==> 1 <= n <= |order| && order[n - 1] in refs
    ensures forall k :: 0 <= k < |order| && order[k] in refs ==> k + 1 in r
  {
    if |order| == 0 then []
    else
      var init := order[..|order| - 1];
      var rest := Markers(init, refs);
      assert forall k :: 0 <= k < |init| ==> init[k] == order[k];
      forall a | 0 <= a < |rest|
        ensures rest[a] <= |init|
      {
        assert rest[a] in rest;
      }
      if order[|order| - 1] in refs then rest + [|order|] else rest
  }

  /** The markers of references all in `order` number each of them. */
  lemma MarkersCover(order: seq<string>, refs: seq<string>)
    requires forall ref :: ref in refs ==> ref in order
    ensures forall ref :: ref in refs ==> RefNumber(order, ref) in Markers(order, refs)
  {
    forall ref | ref in refs
      ensures RefNumber(order, ref) in Markers(order, refs)
    {
      var n := RefNumber(order, ref);
      assert order[n - 1] == ref;
    }
  }

  /** Every reference an answer cites is in the citation order. */
  lemma CitedInOrder(q: QueryResult, i: nat)
    requires i < |q.answers|
    ensures forall ref :: ref in q.answers[i].refs ==> ref in RefOrder(q)
  {
    forall ref | ref in q.answers[i].refs
      ensures ref in RefOrder(q)
    {
      assert ref in AllRefs(q.answers);
    }
  }

  /**
   * Every reference an answer cites has its number among the answer's
   * markers; `Markers` itself keeps out any other number.
   */
  lemma MarkersOfAnswer(q: QueryResult, i: nat)
    requires i < |q.answers|
    ensures forall ref :: ref in q.answers[i].refs ==>
      ref in RefOrder(q) && RefNumber(RefOrder(q), ref) in Markers(RefOrder(q), q.answers[i].refs)
  {
    CitedInOrder(q, i);
    MarkersCover(RefOrder(q), q.answers[i].refs);
  }

  function Marker(n: nat): (r: string)
  {
    "**[" + NatToString(n) + "]**"
  }

  /** `- answer` followed by the answer's markers, when it cites anything. */
  function AnswerLine(item: AnswerItem, order: seq<string>): (r: string)
  {
    var m := Markers(order, item.refs);
    "- " + item.answer
      + (if |item.refs| > 0 then " " + Join(seq(|m|, k requires 0 <= k < |m| => Marker(m[k])), " ") else "")
  }

  /** One numbered entry of the reference list. */
  function ReferenceLine(order: seq<string>, k: nat): (r: string)
    requires k < |order|
  {
    "- " + Marker(k + 1) + " " + order[k]
  }

  /** One bulleted line per entry. */
  function Bullets(items: seq<string>): (r: seq<string>)
    ensures |r| == |items|
    ensures forall k :: 0 <= k < |r| ==> StartsWith(r[k], "- ")
  {
    seq(|items|, k requires 0 <= k < |items| => "- " + items[k])
  }

  /** The ten candidate sections, before the empty ones are dropped. */
  function AllSections(q: QueryResult): (r: seq<string>)
    ensures |r| == 10
  {
    var order := RefOrder(q);
    var answerLines := seq(|q.answers|, i requires 0 <= i < |q.answers| => AnswerLine(q.answers[i], order));
    var referenceLines := seq(|order|, k requires 0 <= k < |order| => ReferenceLine(order, k));
    var references := Join(referenceLines, "\n");
    [ "### Question",
      "**" + q.questionRephrased + "**",
      "### Answers",
      Join(answerLines, "\n"),
      "### Conclusion",
      "**" + q.conclusion + "**",
      if references != "" then "### References" else "",
      references,
      "### Follow-Up Questions",
      Join(Bullets(q.followUps), "\n") ]
  }

  /** `get_answer_text`: empty when rejected, else the non-empty sections separated by blank lines. */
  function GetAnswerText(q: QueryResult): (r: string)
  {
    if q.isRejected then "" else Join(KeepNonEmpty(AllSections(q)), "\n\n")
  }

  /** A rejected result has no answer text. */
  lemma RejectedHasNoText(q: QueryResult)
    requires q.isRejected
    ensures GetAnswerText(q) == ""
  {
  }

  /** A non-rejected answer text opens with the question heading. */
  lemma TextOpensWithQuestion(q: QueryResult)
    requires !q.isRejected
    ensures StartsWith(GetAnswerText(q), "### Question")
  {
    var all := AllSections(q);
    assert all[0] != "";
    var kept := KeepNonEmpty(all);
    assert kept == [all[0]] + KeepNonEmpty(all[1..]);
    JoinStartsWithFirst(kept, "\n\n");
  }

  /** A join of lines that each start with `- ` is empty or starts with `-`. */
  lemma BulletJoin(lines: seq<string>)
    requires forall k :: 0 <= k < |lines| ==> StartsWith(lines[k], "- ")
    ensures var s := Join(lines, "\n"); s == "" || s[0] == '-'
  {
    if |lines| > 0 {
      JoinStartsWithFirst(lines, "\n");
      assert lines[0][0] == '-';
    }
  }

  /** The References heading is present exactly when some answer cites a reference. */
  lemma ReferencesIffCited(q: QueryResult)
    ensures "### References" in KeepNonEmpty(AllSections(q)) <==> |RefOrder(q)| > 0
  {
    if |RefOrder(q)| > 0 {
      ReferencesWhenCited(q);
    } else {
      NoReferencesWhenUncited(q);
    }
  }

  lemma ReferencesWhenCited(q: QueryResult)
    requires |RefOrder(q)| > 0
    ensures "### References" in KeepNonEmpty(AllSections(q))
  {
    var all := AllSections(q);
    var order := RefOrder(q);
    var referenceLines := seq(|order|, k requires 0 <= k < |order| => ReferenceLine(order, k));
    JoinStartsWithFirst(referenceLines, "\n");
    assert all[6] == "### References";
    KeepNonEmptyHas(all, 6);
  }

  lemma NoReferencesWhenUncited(q: QueryResult)
    requires |RefOrder(q)| == 0
    ensures "### References" !in KeepNonEmpty(AllSections(q))
  {
    var all := AllSections(q);
    var order := RefOrder(q);
    var heading := "### References";
    assert |heading| == 14 && heading[13] == 's' && heading[0] == '#';
    var answerLines := seq(|q.answers|, i requires 0 <= i < |q.answers| => AnswerLine(q.answers[i], order));
    BulletJoin(answerLines);
    BulletJoin(Bullets(q.followUps));
    forall k | 0 <= k < 10
      ensures all[k] != heading
    {
      if k == 1 || k == 5 {
        assert all[k][|all[k]| - 1] == '*';
      } else if k == 4 {
        assert all[k][13] == 'n';
      }
    }
  }
}
