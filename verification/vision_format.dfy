/**
 * The three ways a vision answer becomes text. The relation-based and the
 * entity-based formatters turn structured entities and relations into
 * sentences, relations first and then the descriptions of entities that no
 * relation names; the OCR formatter flattens the transcribed answer onto
 * one line.
 */
module VisionFormat {
  import opened PyStr
  import VisionRelation

  datatype Entity = Entity(name: string, description: string)

  datatype Relation = Relation(subject: string, kind: string, obj: string)

  /** The structured vision answer; the relation field `predicate` is called `kind` here. */
  datatype VisionResult = VisionResult(isRejected: bool, rejectionReason: string, entities: seq<Entity>,
                                       relations: seq<Relation>, answer: string)

  /** The sentence used when nothing else was extracted. */
  const Fallback: string := "No meaningful information was extracted from the image."

  /** Every name a relation mentions, as subject or as object. */
  function UsedNames(relations: seq<Relation>): (r: set<string>)
    ensures forall n :: n in r <==> exists i :: 0 <= i < |relations| && (relations[i].subject == n || relations[i].obj == n)
  {
    if |relations| == 0 then {}
    else
      var rest := UsedNames(relations[1..]);
      assert forall i :: 1 <= i < |relations| ==> relations[i] == relations[1..][i - 1];
      {relations[0].subject, relations[0].obj} + rest
  }

  /** `e.description.strip().rstrip('.')`. */
  function CleanDescription(d: string): (r: string)
  {
    RStripChar(Strip(d), '.')
  }

  /** The entity is described: no relation names it and its description is not blank. */
  predicate Described(e: Entity, used: set<string>)
  {
    e.name !in used && CleanDescription(e.description) != ""
  }

  /** The description sentence of an entity, ending in `ending`. */
  function Describe(e: Entity, ending: string): (r: string)
  {
    "The " + e.name + " is described as " + Lower(CleanDescription(e.description)) + ending
  }

  /** The description statements, entity by entity, of the described entities only. */
  function Descriptions(entities: seq<Entity>, used: set<string>, ending: string): (r: seq<string>)
    ensures |r| <= |entities|
  {
    FilterMap(entities, e => Described(e, used), e => Describe(e, ending))
  }

  /** Descriptions are taken entity by entity: they distribute over concatenation. */
  lemma DescriptionsAppend(a: seq<Entity>, b: seq<Entity>, used: set<string>, ending: string)
    ensures Descriptions(a + b, used, ending) == Descriptions(a, used, ending) + Descriptions(b, used, ending)
  {
    FilterMapAppend(a, b, e => Described(e, used), e => Describe(e, ending));
  }

  /** Every description statement belongs to a described entity. */
  lemma DescriptionsFromDescribed(entities: seq<Entity>, used: set<string>, ending: string, j: nat)
    requires j < |Descriptions(entities, used, ending)|
    ensures exists k :: (0 <= k < |entities| && Described(entities[k], used)
      && Descriptions(entities, used, ending)[j] == Describe(entities[k], ending))
  {
    FilterMapFrom(entities, e => Described(e, used), e => Describe(e, ending), j);
  }

  /** Every described entity has its statement. */
  lemma DescribedAppears(entities: seq<Entity>, used: set<string>, ending: string, k: nat)
    requires k < |entities| && Described(entities[k], used)
    ensures Describe(entities[k], ending) in Descriptions(entities, used, ending)
  {
    FilterMapHas(entities, e => Described(e, used), e => Describe(e, ending), k);
  }

  /** Without a described entity there is no description statement. */
  lemma NoDescriptions(entities: seq<Entity>, used: set<string>, ending: string)
    requires forall k :: 0 <= k < |entities| ==> !Described(entities[k], used)
    ensures Descriptions(entities, used, ending) == []
  {
    FilterMapNone(entities, e => Described(e, used), e => Describe(e, ending));
  }

  /** The registered or fallback sentence of each relation, in relation order. */
  function RelationStatements(reg: VisionRelation.Registry, relations: seq<Relation>): (r: seq<string>)
    ensures |r| == |relations|
  {
    seq(|relations|, i requires 0 <= i < |relations| =>
      VisionRelation.Format(reg, relations[i].kind, relations[i].subject, relations[i].obj))
  }

  // ---------------------------------------------------------------------
  // The relation-based formatter

  /** Ends in a dot not preceded by another. */
  predicate OneFinalDot(s: string)
  {
    |s| >= 1 && s[|s| - 1] == '.' && (|s| >= 2 ==> s[|s| - 2] != '.')
  }

  /** `statement.rstrip('.') + "."`: exactly one final dot. */
  function EndWithDot(s: string): (r: string)
    ensures OneFinalDot(r)
  {
    RStripChar(s, '.') + "."
  }

  /** The non-blank statements, each with exactly one final dot. */
  function Finish(statements: seq<string>): (r: seq<string>)
    ensures |r| <= |statements|
    ensures forall j :: 0 <= j < |r| ==> OneFinalDot(r[j])
  {
    if |statements| == 0 then []
    else FinishHead(statements[0]) + Finish(statements[1..])
  }

  function FinishHead(s: string): (r: seq<string>)
    ensures forall j :: 0 <= j < |r| ==> OneFinalDot(r[j])
  {
    if Strip(s) != "" then [EndWithDot(s)] else []
  }

  lemma {:induction false} FinishAppend(a: seq<string>, b: seq<string>)
    ensures Finish(a + b) == Finish(a) + Finish(b)
    decreases |a|
  {
    if |a| == 0 {
      assert a + b == b;
    } else {
      assert (a + b)[1..] == a[1..] + b;
      FinishAppend(a[1..], b);
      AppendAssoc(FinishHead(a[0]), Finish(a[1..]), Finish(b));
    }
  }

  /** The statements of the relation-based formatter: relations first, then descriptions. */
  function VisionStatements(reg: VisionRelation.Registry, v: VisionResult): (r: seq<string>)
  {
    RelationStatements(reg, v.relations) + Descriptions(v.entities, UsedNames(v.relations), ".")
  }

  /**
   * `AiVision.format_vision_answer`: the statements, or the fallback
   * sentence when there are none, as one paragraph.
   */
  function FormatVisionAnswer(reg: VisionRelation.Registry, v: VisionResult): (r: string)
    requires !v.isRejected
  {
    var statements := VisionStatements(reg, v);
    Join(Finish(if |statements| == 0 then [Fallback] else statements), " ")
  }

  /** The fallback sentence is not blank and already ends in exactly one dot. */
  lemma FallbackFinished()
    ensures Finish([Fallback]) == [Fallback]
  {
    var f := Fallback;
    assert f[|f| - 1] == '.' && f[|f| - 2] == 'e';
    FinishOneDot(f);
  }

  /** A single statement that already ends in exactly one dot is kept as it is. */
  lemma FinishOneDot(f: string)
    requires |f| >= 2 && OneFinalDot(f)
    ensures Finish([f]) == [f]
  {
    var n := |f|;
    assert !IsSpace(f[n - 1]);
    StripEmptyIffBlank(f);
    assert RStripChar(f, '.') == f[..n - 1] by {
      RStripCharNone(f[..n - 1], '.');
    }
    assert f[..n - 1] + "." == f;
    assert Finish([f]) == FinishHead(f) + Finish([]);
  }

  /** With no relation and no described entity the answer is the fallback sentence. */
  lemma VisionFallback(reg: VisionRelation.Registry, v: VisionResult)
    requires !v.isRejected && |v.relations| == 0
    requires forall k :: 0 <= k < |v.entities| ==> CleanDescription(v.entities[k].description) == ""
    ensures FormatVisionAnswer(reg, v) == Fallback
  {
    NoDescriptions(v.entities, UsedNames(v.relations), ".");
    assert VisionStatements(reg, v) == [];
    FallbackFinished();
  }

  /**
   * The answer starts with the first relation's sentence, given one
   * relation whose sentence is not blank: relations come first.
   */
  lemma VisionRelationsFirst(reg: VisionRelation.Registry, v: VisionResult)
    requires !v.isRejected && |v.relations| > 0
    requires Strip(RelationStatements(reg, v.relations)[0]) != ""
    ensures StartsWith(FormatVisionAnswer(reg, v), EndWithDot(RelationStatements(reg, v.relations)[0]))
  {
    var st := VisionStatements(reg, v);
    assert st == [st[0]] + st[1..];
    FinishAppend([st[0]], st[1..]);
    assert Finish([st[0]]) == [EndWithDot(st[0])] + Finish([]);
    JoinStartsWithFirst(Finish(st), " ");
  }

  /** Every statement with exactly one final dot. */
  function EndEach(statements: seq<string>): (r: seq<string>)
    ensures |r| == |statements|
    ensures forall j :: 0 <= j < |r| ==> OneFinalDot(r[j]) && r[j] == EndWithDot(statements[j])
  {
    seq(|statements|, j requires 0 <= j < |statements| => EndWithDot(statements[j]))
  }

  /**
   * When no statement is blank, the answer is every statement, in order,
   * ending in exactly one dot, joined by single spaces.
   */
  lemma VisionSentences(reg: VisionRelation.Registry, v: VisionResult)
    requires !v.isRejected
    requires |VisionStatements(reg, v)| > 0
    requires forall j :: 0 <= j < |VisionStatements(reg, v)| ==> Strip(VisionStatements(reg, v)[j]) != ""
    ensures FormatVisionAnswer(reg, v) == Join(EndEach(VisionStatements(reg, v)), " ")
  {
    var st := VisionStatements(reg, v);
    FinishNonBlank(st);
  }

  lemma {:induction false} FinishNonBlank(statements: seq<string>)
    requires forall j :: 0 <= j < |statements| ==> Strip(statements[j]) != ""
    ensures Finish(statements) == EndEach(statements)
    decreases |statements|
  {
    if |statements| > 0 {
      FinishNonBlank(statements[1..]);
    }
  }

  // ---------------------------------------------------------------------
  // The entity-based formatter

  /** `str.upper()` on one character, restricted to the ASCII letters. */
  function UpperChar(c: char): char
  {
    if 'a' <= c <= 'z' then (c as int - 32) as char else c
  }

  /** `str.capitalize()`: the first character in upper case, the rest in lower case. */
  function Capitalize(s: string): (r: string)
    ensures |r| == |s|
    ensures |s| > 0 ==> r[0] == UpperChar(s[0])
    ensures forall i :: 1 <= i < |s| ==> r[i] == LowerChar(s[i])
  {
    if |s| == 0 then "" else [UpperChar(s[0])] + Lower(s[1..])
  }

  /** The statements of the entity-based formatter: no final dots. */
  function EntityStatements(reg: VisionRelation.Registry, v: VisionResult): (r: seq<string>)
  {
    var relations := RelationStatements(reg, v.relations);
    seq(|relations|, i requires 0 <= i < |relations| => RStripChar(relations[i], '.'))
      + Descriptions(v.entities, UsedNames(v.relations), "")
  }

  /** The parts joined by `", and "`: the first capitalised, the others lower-cased. */
  function CompoundParts(statements: seq<string>): (r: seq<string>)
    requires |statements| > 0
    ensures |r| == |statements|
  {
    [Capitalize(statements[0])] + seq(|statements| - 1, i requires 0 <= i < |statements| - 1 => Lower(statements[i + 1]))
  }

  /**
   * `AiVisionEntity.format_vision_answer`: the fallback sentence when there
   * are no statements, otherwise one compound sentence ending in one dot.
   */
  function FormatEntityAnswer(reg: VisionRelation.Registry, v: VisionResult): (r: string)
    requires !v.isRejected
  {
    var statements := EntityStatements(reg, v);
    if |statements| == 0 then Fallback
    else Join(CompoundParts(statements), ", and ") + "."
  }

  /** No final dot. */
  predicate NoFinalDot(s: string)
  {
    |s| == 0 || s[|s| - 1] != '.'
  }

  lemma LowerKeepsNoFinalDot(s: string)
    requires NoFinalDot(s)
    ensures NoFinalDot(Lower(s)) && NoFinalDot(Capitalize(s))
  {
  }

  /** No statement ends in a dot. */
  predicate AllNoFinalDot(statements: seq<string>)
  {
    forall j :: 0 <= j < |statements| ==> NoFinalDot(statements[j])
  }

  lemma AllNoFinalDotAppend(a: seq<string>, b: seq<string>)
    requires AllNoFinalDot(a) && AllNoFinalDot(b)
    ensures AllNoFinalDot(a + b)
  {
    assert forall j :: 0 <= j < |b| ==> (a + b)[|a| + j] == b[j];
  }

  lemma NoFinalDotAppend(a: string, b: string)
    requires NoFinalDot(b) && (|b| == 0 ==> NoFinalDot(a))
    ensures NoFinalDot(a + b)
  {
    if |b| > 0 {
      assert (a + b)[|a + b| - 1] == b[|b| - 1];
    } else {
      assert a + b == a;
    }
  }

  /** A description without ending does not end in a dot. */
  lemma DescribeNoFinalDot(e: Entity)
    ensures NoFinalDot(Describe(e, ""))
  {
    var d := Lower(CleanDescription(e.description));
    var mid := " is described as ";
    assert mid[|mid| - 1] == ' ';
    NoFinalDotAppend("The " + e.name, mid);
    LowerKeepsNoFinalDot(CleanDescription(e.description));
    NoFinalDotAppend("The " + e.name + mid, d);
    NoFinalDotAppend("The " + e.name + mid + d, "");
  }

  /** No description statement without a final dot ends in one. */
  lemma DescriptionsNoFinalDot(entities: seq<Entity>, used: set<string>)
    ensures AllNoFinalDot(Descriptions(entities, used, ""))
  {
    var ds := Descriptions(entities, used, "");
    forall j | 0 <= j < |ds|
      ensures NoFinalDot(ds[j])
    {
      DescriptionsFromDescribed(entities, used, "", j);
      var k :| 0 <= k < |entities| && Described(entities[k], used) && ds[j] == Describe(entities[k], "");
      DescribeNoFinalDot(entities[k]);
    }
  }

  lemma EntityStatementsNoFinalDot(reg: VisionRelation.Registry, v: VisionResult)
    ensures AllNoFinalDot(EntityStatements(reg, v))
  {
    var relations := RelationStatements(reg, v.relations);
    var stripped := seq(|relations|, i requires 0 <= i < |relations| => RStripChar(relations[i], '.'));
    DescriptionsNoFinalDot(v.entities, UsedNames(v.relations));
    AllNoFinalDotAppend(stripped, Descriptions(v.entities, UsedNames(v.relations), ""));
  }

  /** Joining statements without final dots by `", and "` and adding a dot gives one final dot. */
  lemma CompoundOneDot(statements: seq<string>)
    requires |statements| > 0 && AllNoFinalDot(statements)
    ensures OneFinalDot(Join(CompoundParts(statements), ", and ") + ".")
  {
    var parts := CompoundParts(statements);
    var last := parts[|parts| - 1];
    assert NoFinalDot(last) by {
      LowerKeepsNoFinalDot(statements[|statements| - 1]);
    }
    var body := Join(parts, ", and ");
    if |parts| == 1 {
      assert body == last;
    } else {
      JoinLast(parts, ", and ");
      if |last| > 0 {
        assert body[|body| - 1] == last[|last| - 1];
      } else {
        assert body[|body| - 1] == ' ';
      }
    }
  }

  /** The answer, compound sentence or fallback, ends in exactly one dot. */
  lemma EntityAnswerOneDot(reg: VisionRelation.Registry, v: VisionResult)
    requires !v.isRejected
    ensures OneFinalDot(FormatEntityAnswer(reg, v))
  {
    var st := EntityStatements(reg, v);
    if |st| == 0 {
      var f := Fallback;
      assert f[|f| - 1] == '.' && f[|f| - 2] == 'e';
    } else {
      EntityStatementsNoFinalDot(reg, v);
      CompoundOneDot(st);
    }
  }

  /** The compound sentence starts with the first statement, capitalised. */
  lemma EntityAnswerCapitalised(reg: VisionRelation.Registry, v: VisionResult)
    requires !v.isRejected && |EntityStatements(reg, v)| > 0
    ensures StartsWith(FormatEntityAnswer(reg, v), Capitalize(EntityStatements(reg, v)[0]))
  {
    var parts := CompoundParts(EntityStatements(reg, v));
    JoinStartsWithFirst(parts, ", and ");
  }

  /** With no relation and no described entity the answer is the fallback sentence. */
  lemma EntityFallback(reg: VisionRelation.Registry, v: VisionResult)
    requires !v.isRejected && |v.relations| == 0
    requires forall k :: 0 <= k < |v.entities| ==> CleanDescription(v.entities[k].description) == ""
    ensures FormatEntityAnswer(reg, v) == Fallback
  {
    NoDescriptions(v.entities, UsedNames(v.relations), "");
  }

  // ---------------------------------------------------------------------
  // The OCR formatter

  /** `AiVisionOCR.format_vision_answer`: the answer's lines joined by single spaces. */
  function FormatOcrAnswer(v: VisionResult): (r: string)
    ensures NoLineBreak(r)
  {
    var lines := SplitLines(v.answer);
    JoinNoLineBreak(lines, " ");
    Join(lines, " ")
  }

  /** A single-line answer is returned unchanged, the empty answer included. */
  lemma OcrSingleLine(v: VisionResult)
    requires NoLineBreak(v.answer)
    ensures FormatOcrAnswer(v) == v.answer
  {
    if |v.answer| > 0 {
      SplitLinesNoBreak(v.answer);
    }
  }

  /** Lines separated by line feeds come back separated by single spaces, a final empty line dropped. */
  lemma OcrJoinsLines(v: VisionResult, lines: seq<string>)
    requires AllNoLineBreak(lines) && v.answer == Join(lines, "\n")
    ensures FormatOcrAnswer(v) == Join(DropFinalEmpty(lines), " ")
  {
    SplitLinesOfJoin(lines);
  }
}
