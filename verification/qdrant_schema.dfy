/**
 * The payload stored with every vector point: five mandatory fields, three
 * optional ones, no others, and at most one of the two reference ranges,
 * with an empty range read as no range.
 *
 * Raw payloads are maps from field name to a JSON-like value. Validation
 * is lax, as in pydantic 2 by default: an integer field also takes a
 * boolean and a float with no fractional part, a float field also takes an
 * integer or a boolean, and a string field takes only a string. Numeric
 * strings, which lax validation also converts, are not modelled.
 */
module QdrantSchema {
  import opened Wrappers

  /** A raw payload value. */
  datatype Value = Null | Str(s: string) | Int(i: int) | Real(x: real) | List(items: seq<Value>) | Bool(b: bool)

  type RawPayload = map<string, Value>

  /** The fields of `QdrantPayload`. */
  datatype Field = FilePath | FileMtime | ChunkIndex | ChunksTotal | ChunkText | Version | PageRange | LineRange
  {
    predicate Mandatory()
    {
      !(Version? || PageRange? || LineRange?)
    }
  }

  const AllFields: seq<Field> := [FilePath, FileMtime, ChunkIndex, ChunksTotal, ChunkText, Version, PageRange, LineRange]

  lemma InAllFields(f: Field)
    ensures f in AllFields
  {
    var i := match f
      case FilePath => 0 case FileMtime => 1 case ChunkIndex => 2 case ChunksTotal => 3
      case ChunkText => 4 case Version => 5 case PageRange => 6 case LineRange => 7;
    assert AllFields[i] == f;
  }

  function Name(f: Field): (r: string)
  {
    match f
    case FilePath => "file_path"
    case FileMtime => "file_mtime"
    case ChunkIndex => "chunk_index"
    case ChunksTotal => "chunks_total"
    case ChunkText => "chunk_text"
    case Version => "version"
    case PageRange => "page_range"
    case LineRange => "line_range"
  }

  /** The field a key names, if any. */
  function FieldOf(k: string): (r: Option<Field>)
    ensures r.Some? ==> Name(r.value) == k
  {
    if k == Name(FilePath) then Some(FilePath)
    else if k == Name(FileMtime) then Some(FileMtime)
    else if k == Name(ChunkIndex) then Some(ChunkIndex)
    else if k == Name(ChunksTotal) then Some(ChunksTotal)
    else if k == Name(ChunkText) then Some(ChunkText)
    else if k == Name(Version) then Some(Version)
    else if k == Name(PageRange) then Some(PageRange)
    else if k == Name(LineRange) then Some(LineRange)
    else None
  }

  /** Every field's name is recognised as that field. */
  lemma FieldOfName(f: Field)
    ensures FieldOf(Name(f)) == Some(f)
  {
  }

  /** Distinct fields have distinct names. */
  lemma NamesDistinct(f: Field, g: Field)
    requires f != g
    ensures Name(f) != Name(g)
  {
    FieldOfName(f);
    FieldOfName(g);
  }

  /** `QdrantPayload`. */
  datatype Payload = Payload(filePath: string, fileMtime: real, chunkIndex: int, chunksTotal: int,
                             chunkText: string, version: Option<string>, pageRange: Option<seq<int>>,
                             lineRange: Option<seq<int>>)

  /** One reason a raw payload is rejected. */
  datatype Problem = Missing(field: Field) | Extra(key: string) | WrongType(field: Field) | BothRanges

  /** `ValueError` for a missing payload; a validation error listing every problem otherwise. */
  datatype ParseError = PayloadIsNone | Invalid(problems: set<Problem>)

  /** The number a float field reads from a value: a float, an integer or a boolean. */
  function AsFloat(v: Value): (r: Option<real>)
    ensures r.Some? <==> v.Real? || v.Int? || v.Bool?
    ensures v.Real? ==> r == Some(v.x)
  {
    match v
    case Real(x) => Some(x)
    case Int(i) => Some(i as real)
    case Bool(b) => Some(if b then 1.0 else 0.0)
    case _ => None
  }

  /** The number an integer field reads from a value: an integer, a boolean, or a float with no fractional part. */
  function AsInt(v: Value): (r: Option<int>)
    ensures r.Some? <==> v.Int? || v.Bool? || (v.Real? && v.x.Floor as real == v.x)
    ensures r.Some? ==> AsFloat(v) == Some(r.value as real)
    ensures v.Int? ==> r == Some(v.i)
  {
    match v
    case Int(i) => Some(i)
    case Bool(b) => Some(if b then 1 else 0)
    case Real(x) => if x.Floor as real == x then Some(x.Floor) else None
    case _ => None
  }

  /** A list each of whose items an integer field would accept. */
  predicate IsIntList(v: Value)
  {
    v.List? && forall k :: 0 <= k < |v.items| ==> AsInt(v.items[k]).Some?
  }

  /** The values a field accepts under lax validation. */
  predicate WellTyped(f: Field, v: Value)
  {
    match f
    case FilePath => v.Str?
    case ChunkText => v.Str?
    case FileMtime => AsFloat(v).Some?
    case ChunkIndex => AsInt(v).Some?
    case ChunksTotal => AsInt(v).Some?
    case Version => v.Null? || v.Str?
    case PageRange => v.Null? || IsIntList(v)
    case LineRange => v.Null? || IsIntList(v)
  }

  /** All mandatory fields present, no unknown key, every field well typed. */
  predicate WellFormed(d: RawPayload)
  {
    (forall f: Field :: f.Mandatory() ==> Name(f) in d)
      && (forall k :: k in d ==> FieldOf(k).Some?)
      && (forall f :: Name(f) in d ==> WellTyped(f, d[Name(f)]))
  }

  /** Every problem of the raw fields, as the field validation reports them together. */
  function FieldProblems(d: RawPayload): (r: set<Problem>)
    ensures BothRanges !in r
  {
    (set f | f in AllFields && f.Mandatory() && Name(f) !in d :: Missing(f))
      + (set k | k in d && FieldOf(k).None? :: Extra(k))
      + (set f | f in AllFields && Name(f) in d && !WellTyped(f, d[Name(f)]) :: WrongType(f))
  }

  lemma FieldsListed()
    ensures forall f: Field :: f in AllFields
  {
    forall f: Field
      ensures f in AllFields
    {
      InAllFields(f);
    }
  }

  /** Nothing is reported exactly when the raw payload is well formed. */
  lemma FieldProblemsEmpty(d: RawPayload)
    ensures FieldProblems(d) == {} <==> WellFormed(d)
  {
    FieldProblemsReported(d);
    if !WellFormed(d) {
      if !(forall f: Field :: f.Mandatory() ==> Name(f) in d) {
        var f: Field :| f.Mandatory() && Name(f) !in d;
        assert Missing(f) in FieldProblems(d);
      } else if !(forall k :: k in d ==> FieldOf(k).Some?) {
        var k :| k in d && FieldOf(k).None?;
        assert Extra(k) in FieldProblems(d);
      } else {
        var f: Field :| Name(f) in d && !WellTyped(f, d[Name(f)]);
        assert WrongType(f) in FieldProblems(d);
      }
    }
  }

  /** Each missing, unknown or ill-typed field is reported. */
  lemma FieldProblemsReported(d: RawPayload)
    ensures forall f: Field :: f.Mandatory() && Name(f) !in d ==> Missing(f) in FieldProblems(d)
    ensures forall k :: k in d && FieldOf(k).None? ==> Extra(k) in FieldProblems(d)
    ensures forall f :: Name(f) in d && !WellTyped(f, d[Name(f)]) ==> WrongType(f) in FieldProblems(d)
  {
    FieldsListed();
  }

  function IntsOf(items: seq<Value>): (r: seq<int>)
    requires forall k :: 0 <= k < |items| ==> AsInt(items[k]).Some?
    ensures |r| == |items| && forall k :: 0 <= k < |r| ==> AsInt(items[k]) == Some(r[k])
  {
    seq(|items|, k requires 0 <= k < |items| => AsInt(items[k]).value)
  }

  /** An optional range: absent, null, or a list of integers. */
  function RangeOf(d: RawPayload, f: Field): (r: Option<seq<int>>)
    requires f == PageRange || f == LineRange
    requires Name(f) in d ==> WellTyped(f, d[Name(f)])
  {
    if Name(f) in d && d[Name(f)].List? then Some(IntsOf(d[Name(f)].items)) else None
  }

  /** The typed payload of a raw one whose fields are all present and well typed. */
  function Fields(d: RawPayload): (r: Payload)
    requires WellFormed(d)
  {
    var mtime := d[Name(FileMtime)];
    assert WellTyped(FileMtime, mtime) && WellTyped(ChunkIndex, d[Name(ChunkIndex)]);
    assert WellTyped(ChunksTotal, d[Name(ChunksTotal)]);
    var version := if Name(Version) in d then d[Name(Version)] else Null;
    Payload(d[Name(FilePath)].s, AsFloat(mtime).value,
            AsInt(d[Name(ChunkIndex)]).value, AsInt(d[Name(ChunksTotal)]).value, d[Name(ChunkText)].s,
            if version.Str? then Some(version.s) else None,
            RangeOf(d, PageRange), RangeOf(d, LineRange))
  }

  /** An empty range counts as no range. */
  function NormalizeRange(r: Option<seq<int>>): (n: Option<seq<int>>)
    ensures n.Some? ==> |n.value| > 0
    ensures r.Some? && |r.value| > 0 ==> n == r
  {
    if r.Some? && |r.value| == 0 then None else r
  }

  /** The state `validate_ranges` guarantees: at most one range, neither empty. */
  predicate ValidRanges(p: Payload)
  {
    !(p.pageRange.Some? && p.lineRange.Some?)
      && (p.pageRange.Some? ==> |p.pageRange.value| > 0)
      && (p.lineRange.Some? ==> |p.lineRange.value| > 0)
  }

  /** `validate_ranges`: normalise empty ranges, then reject a payload with both. */
  function ValidateRanges(p: Payload): (r: Result<Payload, ParseError>)
    ensures r.Success? ==> (ValidRanges(r.value)
      && r.value == p.(pageRange := r.value.pageRange, lineRange := r.value.lineRange))
    ensures r.Failure? <==> NormalizeRange(p.pageRange).Some? && NormalizeRange(p.lineRange).Some?
    ensures r.Failure? ==> r.error == Invalid({BothRanges})
  {
    var q := p.(pageRange := NormalizeRange(p.pageRange), lineRange := NormalizeRange(p.lineRange));
    if q.pageRange.Some? && q.lineRange.Some? then Failure(Invalid({BothRanges})) else Success(q)
  }

  /** A payload already in the validated state passes unchanged. */
  lemma ValidateRangesKeepsValid(p: Payload)
    requires ValidRanges(p)
    ensures ValidateRanges(p) == Success(p)
  {
  }

  /** `parse_payload`. */
  function ParsePayload(d: Option<RawPayload>): (r: Result<Payload, ParseError>)
    ensures d.None? ==> r == Failure(PayloadIsNone)
    ensures r.Success? ==> ValidRanges(r.value)
  {
    if d.None? then Failure(PayloadIsNone)
    else if FieldProblems(d.value) != {} then Failure(Invalid(FieldProblems(d.value)))
    else
      FieldProblemsEmpty(d.value);
      ValidateRanges(Fields(d.value))
  }

  /** A missing mandatory field is reported. */
  lemma MissingMandatoryRejected(d: RawPayload, f: Field)
    requires f.Mandatory() && Name(f) !in d
    ensures ParsePayload(Some(d)).Failure? && Missing(f) in ParsePayload(Some(d)).error.problems
  {
    FieldProblemsReported(d);
  }

  /** An unknown field is reported. */
  lemma UnknownFieldRejected(d: RawPayload, k: string)
    requires k in d && forall f :: Name(f) != k
    ensures ParsePayload(Some(d)).Failure? && Extra(k) in ParsePayload(Some(d)).error.problems
  {
    FieldProblemsReported(d);
  }

  /** Both ranges non-empty: rejected, and for that reason only. */
  lemma BothRangesRejected(d: RawPayload)
    requires WellFormed(d)
    requires Name(PageRange) in d && d[Name(PageRange)].List? && |d[Name(PageRange)].items| > 0
    requires Name(LineRange) in d && d[Name(LineRange)].List? && |d[Name(LineRange)].items| > 0
    ensures ParsePayload(Some(d)) == Failure(Invalid({BothRanges}))
  {
  }

  /** Absent optional fields read as None. */
  lemma OptionalFieldsDefault(d: RawPayload)
    requires WellFormed(d)
    requires Name(Version) !in d && Name(PageRange) !in d && Name(LineRange) !in d
    ensures ParsePayload(Some(d)).Success?
    ensures var p := ParsePayload(Some(d)).value;
      p.version.None? && p.pageRange.None? && p.lineRange.None?
  {
  }

  function IntValues(xs: seq<int>): (r: seq<Value>)
    ensures |r| == |xs|
  {
    seq(|xs|, k requires 0 <= k < |xs| => Int(xs[k]))
  }

  /** The dumped value of one field; a missing optional value is null. */
  function DumpField(p: Payload, f: Field): (r: Value)
  {
    match f
    case FilePath => Str(p.filePath)
    case FileMtime => Real(p.fileMtime)
    case ChunkIndex => Int(p.chunkIndex)
    case ChunksTotal => Int(p.chunksTotal)
    case ChunkText => Str(p.chunkText)
    case Version => if p.version.Some? then Str(p.version.value) else Null
    case PageRange => if p.pageRange.Some? then List(IntValues(p.pageRange.value)) else Null
    case LineRange => if p.lineRange.Some? then List(IntValues(p.lineRange.value)) else Null
  }

  /** `model_dump`: every field under its name. */
  function Dump(p: Payload): (r: RawPayload)
    ensures forall f :: Name(f) in r && r[Name(f)] == DumpField(p, f)
    ensures forall k :: k in r ==> FieldOf(k).Some?
  {
    forall f: Field
      ensures f in AllFields && FieldOf(Name(f)) == Some(f)
    {
      InAllFields(f);
      FieldOfName(f);
    }
    map k | k in (set f | f in AllFields :: Name(f)) :: DumpField(p, FieldOf(k).value)
  }

  lemma DumpWellTyped(p: Payload, f: Field)
    ensures WellTyped(f, DumpField(p, f))
  {
  }

  lemma RangeRoundTrip(d: RawPayload, p: Payload, f: Field)
    requires f == PageRange || f == LineRange
    requires Name(f) in d && d[Name(f)] == DumpField(p, f)
    ensures RangeOf(d, f) == if f == PageRange then p.pageRange else p.lineRange
  {
    var o := if f == PageRange then p.pageRange else p.lineRange;
    if o.Some? {
      assert IntsOf(IntValues(o.value)) == o.value;
    }
  }

  /** A raw payload holding exactly the dumped value of every field. */
  predicate DumpOf(d: RawPayload, p: Payload)
  {
    (forall f :: Name(f) in d && d[Name(f)] == DumpField(p, f)) && (forall k :: k in d ==> FieldOf(k).Some?)
  }

  /** Such a payload is well formed and its fields are the payload's. */
  lemma DumpOfFieldsBack(d: RawPayload, p: Payload)
    requires DumpOf(d, p)
    ensures WellFormed(d) && Fields(d) == p
  {
    forall f: Field
      ensures WellTyped(f, d[Name(f)])
    {
      DumpWellTyped(p, f);
    }
    var q := Fields(d);
    assert q.pageRange == p.pageRange by { RangeRoundTrip(d, p, PageRange); }
    assert q.lineRange == p.lineRange by { RangeRoundTrip(d, p, LineRange); }
    assert q.filePath == p.filePath by { assert d[Name(FilePath)] == DumpField(p, FilePath); }
    assert q.fileMtime == p.fileMtime by { assert d[Name(FileMtime)] == DumpField(p, FileMtime); }
    assert q.chunkIndex == p.chunkIndex by { assert d[Name(ChunkIndex)] == DumpField(p, ChunkIndex); }
    assert q.chunksTotal == p.chunksTotal by { assert d[Name(ChunksTotal)] == DumpField(p, ChunksTotal); }
    assert q.chunkText == p.chunkText by { assert d[Name(ChunkText)] == DumpField(p, ChunkText); }
    assert q.version == p.version by { assert d[Name(Version)] == DumpField(p, Version); }
  }

  /** Parsing the dump of a validated payload gives that payload back. */
  lemma DumpParseRoundTrip(p: Payload)
    requires ValidRanges(p)
    ensures ParsePayload(Some(Dump(p))) == Success(p)
  {
    var d := Dump(p);
    DumpOfFieldsBack(d, p);
    FieldProblemsEmpty(d);
    assert FieldProblems(d) == {};
    ValidateRangesKeepsValid(p);
    assert ParsePayload(Some(d)) == ValidateRanges(Fields(d));
  }

  /** Lax numbers: an integer time, a whole float index and a boolean total are read as numbers. */
  lemma LaxNumbersAccepted(d: RawPayload)
    requires d == map["file_path" := Str("a.txt"), "file_mtime" := Int(5), "chunk_index" := Real(3.0),
                      "chunks_total" := Bool(true), "chunk_text" := Str("t")]
    ensures ParsePayload(Some(d)) == Success(Payload("a.txt", 5.0, 3, 1, "t", None, None, None))
  {
    FieldOfName(FilePath); FieldOfName(FileMtime); FieldOfName(ChunkIndex);
    FieldOfName(ChunksTotal); FieldOfName(ChunkText);
    assert forall k :: k in d ==> FieldOf(k).Some?;
    assert Name(Version) !in d && Name(PageRange) !in d && Name(LineRange) !in d;
    forall f: Field
      ensures f.Mandatory() ==> Name(f) in d
      ensures Name(f) in d ==> WellTyped(f, d[Name(f)])
    {
      match f
      case FilePath =>
      case FileMtime =>
      case ChunkIndex => assert (3.0).Floor == 3;
      case ChunksTotal =>
      case ChunkText =>
      case _ =>
    }
    assert WellFormed(d);
    FieldProblemsEmpty(d);
    var p := Fields(d);
    assert p.fileMtime == 5.0 && p.chunkIndex == 3 && p.chunksTotal == 1;
    assert p.version.None? && p.pageRange.None? && p.lineRange.None?;
    assert ParsePayload(Some(d)) == ValidateRanges(p);
  }

  /** A float index with a fractional part is an ill-typed field. */
  lemma FractionalIndexRejected(d: RawPayload)
    requires Name(ChunkIndex) in d && d[Name(ChunkIndex)] == Real(2.5)
    ensures ParsePayload(Some(d)).Failure? && WrongType(ChunkIndex) in ParsePayload(Some(d)).error.problems
  {
    FieldProblemsReported(d);
    assert (2.5).Floor == 2;
  }
}
