/**
 * The registry of relation types the vision prompts offer and the vision
 * formatters use. A registration is a predicate name, a description for
 * the prompt and a formatter that turns a subject and an object into a
 * sentence. The registry behaves as a Python `dict`: registering a known
 * predicate replaces its entry in place, a new one is appended, and
 * iteration follows first registration. Two registries exist: the one of
 * the relation-based vision formatter (12 predicates) and its copy in the
 * entity-based formatter (26 predicates).
 */
module VisionRelation {
  import opened Wrappers
  import opened PyStr

  type Formatter = (string, string) -> string

  datatype Entry = Entry(name: string, description: string, formatter: Formatter)

  type Registry = seq<Entry>

  /** No predicate is registered twice, as for the keys of a `dict`. */
  predicate Distinct(reg: Registry)
  {
    forall i, j :: 0 <= i < j < |reg| ==> reg[i].name != reg[j].name
  }

  /** `all_predicates`: the keys in first-registration order. */
  function AllPredicates(reg: Registry): (r: seq<string>)
    ensures |r| == |reg|
    ensures forall i :: 0 <= i < |reg| ==> r[i] == reg[i].name
  {
    seq(|reg|, i requires 0 <= i < |reg| => reg[i].name)
  }

  /** Position of predicate `p` in the registry, if registered. */
  function Find(reg: Registry, p: string): (r: Option<nat>)
    ensures r.Some? ==> r.value < |reg| && reg[r.value].name == p
    ensures r.None? <==> forall i :: 0 <= i < |reg| ==> reg[i].name != p
    ensures r.Some? ==> forall i :: 0 <= i < r.value ==> reg[i].name != p
  {
    if |reg| == 0 then None
    else if reg[0].name == p then Some(0)
    else match Find(reg[1..], p)
      case Some(i) => Some(i + 1)
      case None => None
  }

  /** The first position holding `p` is the one `Find` reports. */
  lemma FindFirst(reg: Registry, p: string, k: nat)
    requires k < |reg| && reg[k].name == p
    requires forall i :: 0 <= i < k ==> reg[i].name != p
    ensures Find(reg, p) == Some(k)
  {
  }

  /** In a registry without duplicates the position of a predicate is its only one. */
  lemma FindDistinct(reg: Registry, k: nat)
    requires Distinct(reg) && k < |reg|
    ensures Find(reg, reg[k].name) == Some(k)
  {
  }

  /** `register`: the entry of `p` replaced in place, or appended when `p` is new. */
  function Register(reg: Registry, p: string, description: string, formatter: Formatter): (r: Registry)
    ensures Find(reg, p).Some? ==> AllPredicates(r) == AllPredicates(reg)
    ensures Find(reg, p).None? ==> AllPredicates(r) == AllPredicates(reg) + [p]
    ensures Find(r, p).Some? && r[Find(r, p).value] == Entry(p, description, formatter)
    ensures forall i :: 0 <= i < |reg| && reg[i].name != p ==> r[i] == reg[i]
  {
    match Find(reg, p)
    case Some(i) =>
      var r := reg[i := Entry(p, description, formatter)];
      assert AllPredicates(r) == AllPredicates(reg);
      FindFirst(r, p, i);
      r
    case None =>
      var r := reg + [Entry(p, description, formatter)];
      assert forall k :: 0 <= k < |reg| ==> r[k] == reg[k];
      assert AllPredicates(r) == AllPredicates(reg) + [p];
      FindFirst(r, p, |reg|);
      r
  }

  /** Registering keeps the predicates distinct. */
  lemma RegisterDistinct(reg: Registry, p: string, description: string, formatter: Formatter)
    requires Distinct(reg)
    ensures Distinct(Register(reg, p, description, formatter))
  {
    var r := Register(reg, p, description, formatter);
    var names := AllPredicates(r);
    assert forall i :: 0 <= i < |r| ==> r[i].name == names[i];
  }

  /** `predicate.replace('_', ' ')`. */
  function UnderscoresToSpaces(p: string): (r: string)
    ensures |r| == |p|
    ensures forall i :: 0 <= i < |p| ==> r[i] == (if p[i] == '_' then ' ' else p[i])
  {
    seq(|p|, i requires 0 <= i < |p| => if p[i] == '_' then ' ' else p[i])
  }

  /**
   * `format`: a registered predicate uses its own formatter; any other
   * reads "The {subject} {predicate with spaces} the {object}."
   */
  function Format(reg: Registry, p: string, subject: string, obj: string): (r: string)
    ensures Find(reg, p).Some? ==> r == reg[Find(reg, p).value].formatter(subject, obj)
    ensures Find(reg, p).None? ==>
      var words := UnderscoresToSpaces(p);
      && |r| == |"The "| + |subject| + 1 + |p| + |" the "| + |obj| + 1
      && StartsWith(r, "The " + subject + " ")
      && r[|"The "| + |subject| + 1..][..|p|] == words
      && EndsWith(r, " the " + obj + ".")
  {
    match Find(reg, p)
    case Some(i) => reg[i].formatter(subject, obj)
    case None =>
      var head := "The " + subject + " ";
      var words := UnderscoresToSpaces(p);
      var tail := " the " + obj + ".";
      var r := head + words + tail;
      assert r[..|head|] == head;
      assert r[|head|..][..|p|] == words;
      assert r[|r| - |tail|..] == tail;
      r
  }

  /** A predicate just registered is formatted by the formatter just given. */
  lemma RegisterThenFormat(reg: Registry, p: string, d: string, f: Formatter, subject: string, obj: string)
    ensures Format(Register(reg, p, d, f), p, subject, obj) == f(subject, obj)
  {
  }

  /** Registering one predicate leaves the formatting of every other one as it was. */
  lemma RegisterKeepsOthers(reg: Registry, p: string, d: string, f: Formatter, q: string, subject: string, obj: string)
    requires q != p
    ensures Format(Register(reg, p, d, f), q, subject, obj) == Format(reg, q, subject, obj)
  {
    var r := Register(reg, p, d, f);
    assert forall k :: 0 <= k < |reg| ==> r[k].name == reg[k].name by {
      assert AllPredicates(r)[..|reg|] == AllPredicates(reg);
    }
    match Find(reg, q)
    case Some(i) =>
      assert r[i] == reg[i];
      FindFirst(r, q, i);
    case None =>
      assert forall k :: 0 <= k < |r| ==> r[k].name != q;
  }

  /** Registering a predicate again overwrites the first registration: the last one wins. */
  lemma ReregisterOverwrites(reg: Registry, p: string, d1: string, f1: Formatter, d2: string, f2: Formatter)
    ensures Register(Register(reg, p, d1, f1), p, d2, f2) == Register(reg, p, d2, f2)
  {
    match Find(reg, p)
    case Some(i) => ReregisterKnown(reg, p, d1, f1, d2, f2, i);
    case None => ReregisterNew(reg, p, d1, f1, d2, f2);
  }

  lemma ReregisterKnown(reg: Registry, p: string, d1: string, f1: Formatter, d2: string, f2: Formatter, i: nat)
    requires Find(reg, p) == Some(i)
    ensures Register(Register(reg, p, d1, f1), p, d2, f2) == reg[i := Entry(p, d2, f2)]
  {
    var r1 := reg[i := Entry(p, d1, f1)];
    assert Register(reg, p, d1, f1) == r1;
    assert Find(r1, p) == Some(i) by {
      FindFirst(r1, p, i);
    }
    assert Register(r1, p, d2, f2) == r1[i := Entry(p, d2, f2)];
    assert r1[i := Entry(p, d2, f2)] == reg[i := Entry(p, d2, f2)] by {
      SetTwice(reg, i, Entry(p, d1, f1), Entry(p, d2, f2));
    }
  }

  lemma SetTwice<T>(s: seq<T>, i: nat, a: T, b: T)
    requires i < |s|
    ensures s[i := a][i := b] == s[i := b]
  {
  }

  lemma ReregisterNew(reg: Registry, p: string, d1: string, f1: Formatter, d2: string, f2: Formatter)
    requires Find(reg, p).None?
    ensures Register(Register(reg, p, d1, f1), p, d2, f2) == reg + [Entry(p, d2, f2)]
  {
    var r1 := reg + [Entry(p, d1, f1)];
    assert Register(reg, p, d1, f1) == r1;
    FindFirst(r1, p, |reg|);
    assert r1[|reg| := Entry(p, d2, f2)] == reg + [Entry(p, d2, f2)];
  }

  // ---------------------------------------------------------------------
  // `for_prompt`

  /** One prompt line: "- `pred`: description (e.g., "example")". */
  function PromptLine(e: Entry): (r: string)
  {
    "- `" + e.name + "`: " + e.description + " (e.g., \"" + e.formatter("X", "Y") + "\")"
  }

  /** `for_prompt`: the prompt lines in registry order, joined by line feeds. */
  function ForPrompt(reg: Registry): (r: string)
  {
    Join(seq(|reg|, i requires 0 <= i < |reg| => PromptLine(reg[i])), "\n")
  }

  /** No part of a registration holds a line feed. */
  predicate SingleLine(e: Entry)
  {
    HasNoChar(e.name, '\n') && HasNoChar(e.description, '\n') && HasNoChar(e.formatter("X", "Y"), '\n')
  }

  lemma PromptLineSingle(e: Entry)
    requires SingleLine(e)
    ensures HasNoChar(PromptLine(e), '\n')
    ensures StartsWith(PromptLine(e), "- `" + e.name + "`: ")
  {
    var head := "- `" + e.name + "`: ";
    var line := PromptLine(e);
    assert line[..|head|] == head;
    var ex := e.formatter("X", "Y");
    assert forall i :: 0 <= i < |line| ==> line[i] == '\n' ==> false by {
      assert line == "- `" + e.name + "`: " + e.description + " (e.g., \"" + ex + "\")";
    }
  }

  /**
   * When no registration holds a line feed, the prompt text has exactly
   * one line per predicate, in registry order, each naming its predicate.
   */
  lemma ForPromptLines(reg: Registry)
    requires |reg| > 0
    requires forall i :: 0 <= i < |reg| ==> SingleLine(reg[i])
    ensures |Split(ForPrompt(reg), '\n')| == |reg|
    ensures forall i :: 0 <= i < |reg| ==>
      Split(ForPrompt(reg), '\n')[i] == PromptLine(reg[i]) && StartsWith(PromptLine(reg[i]), "- `" + reg[i].name + "`: ")
  {
    var lines := seq(|reg|, i requires 0 <= i < |reg| => PromptLine(reg[i]));
    forall i | 0 <= i < |reg|
      ensures HasNoChar(lines[i], '\n') && StartsWith(PromptLine(reg[i]), "- `" + reg[i].name + "`: ")
    {
      PromptLineSingle(reg[i]);
    }
    SplitJoin(lines, '\n');
  }

  // ---------------------------------------------------------------------
  // The canonical registries

  /** Every canonical formatter reads "The {subject}" + `middle` + "{obj}" + `ending`. */
  function Sentence(middle: string, ending: string): Formatter
  {
    (s: string, o: string) => "The " + s + middle + o + ending
  }

  /** Registering a list of entries one after another, as the module initialisation does. */
  function RegisterAll(reg: Registry, entries: seq<Entry>): (r: Registry)
    decreases |entries|
  {
    if |entries| == 0 then reg
    else RegisterAll(Register(reg, entries[0].name, entries[0].description, entries[0].formatter), entries[1..])
  }

  /** Registering entries with new, distinct predicates appends them in order. */
  lemma {:induction false} RegisterAllFresh(reg: Registry, entries: seq<Entry>)
    requires Distinct(reg + entries)
    ensures RegisterAll(reg, entries) == reg + entries
    decreases |entries|
  {
    if |entries| > 0 {
      var e := entries[0];
      assert (reg + entries)[|reg|] == e;
      assert Find(reg, e.name).None? by {
        forall i | 0 <= i < |reg|
          ensures reg[i].name != e.name
        {
          assert (reg + entries)[i] == reg[i];
        }
      }
      var reg1 := Register(reg, e.name, e.description, e.formatter);
      assert reg1 == reg + [e];
      assert reg1 + entries[1..] == reg + entries;
      RegisterAllFresh(reg1, entries[1..]);
    }
  }

  /** The relations of the relation-based vision formatter, in registration order. */
  const CanonicalRelations: seq<Entry> := [
    Entry("left_of", "X is visually to the left of Y.", Sentence(" is positioned to the left of the ", ".")),
    Entry("right_of", "X is visually to the right of Y.", Sentence(" is positioned to the right of the ", ".")),
    Entry("above", "X is visually above Y.", Sentence(" is positioned above the ", ".")),
    Entry("below", "X is visually below Y.", Sentence(" is positioned below the ", ".")),
    Entry("inside", "X is inside Y.", Sentence(" is located within the ", ".")),
    Entry("contains", "X contains Y.", Sentence(" contains the ", ".")),
    Entry("part_of", "X is a part of Y.", Sentence(" is a component of the ", ".")),
    Entry("describes", "X describes Y (e.g., text describes a figure or object).", Sentence(" describes the entity ", ".")),
    Entry("references", "X references Y (e.g., text or document refers to an entity).", Sentence(" refers to the entity ", ".")),
    Entry("links_to", "X is connected to Y in a visual or logical flow.", Sentence(" is connected to the ", " in a flow.")),
    Entry("has_attribute", "X has the attribute Y (e.g., object has value, date, or property).", Sentence(" has the attribute ", ".")),
    Entry("defines", "X defines Y (e.g., term defines a concept).", Sentence(" defines the concept of ", "."))
  ]

  /** The registry after the relation module's initialisation. */
  const RelationRegistry: Registry := RegisterAll([], CanonicalRelations)

  /** A cheap fingerprint of a predicate name: its length and first letter. */
  function Fingerprint(s: string): (r: int)
  {
    if |s| == 0 then 0 else |s| * 0x11_0000 + s[0] as int
  }

  /** The 12 canonical predicates are distinct, so each is registered once, in this order. */
  lemma RelationRegistryPredicates()
    ensures RelationRegistry == CanonicalRelations
    ensures Distinct(RelationRegistry)
    ensures |AllPredicates(RelationRegistry)| == 12
  {
    var c := CanonicalRelations;
    CanonicalRelationsDistinct();
    assert [] + c == c;
    RegisterAllFresh([], c);
  }

  /** The relations of the entity-based vision formatter, in registration order. */
  const EntityRelations: seq<Entry> := [
    Entry("left_of", "X is visually to the left of Y.", Sentence(" is positioned to the left of the ", ".")),
    Entry("right_of", "X is visually to the right of Y.", Sentence(" is positioned to the right of the ", ".")),
    Entry("above", "X is visually above Y.", Sentence(" is positioned above the ", ".")),
    Entry("below", "X is visually below Y.", Sentence(" is positioned below the ", ".")),
    Entry("inside", "X is inside Y.", Sentence(" is located within the ", ".")),
    Entry("contains", "X contains Y.", Sentence(" contains the ", ".")),
    Entry("on", "X is on top of Y (e.g., resting or placed).", Sentence(" is on the ", ".")),
    Entry("under", "X is under Y.", Sentence(" is under the ", ".")),
    Entry("behind", "X is behind Y.", Sentence(" is behind the ", ".")),
    Entry("in_front_of", "X is in front of Y.", Sentence(" is in front of the ", ".")),
    Entry("next_to", "X is next to Y (adjacent).", Sentence(" is next to the ", ".")),
    Entry("adjacent_to", "X is adjacent to Y.", Sentence(" is adjacent to the ", ".")),
    Entry("part_of", "X is a part of Y.", Sentence(" is a component of the ", ".")),
    Entry("has_part", "X has Y as a part.", Sentence(" has the ", " as a part.")),
    Entry("composed_of", "X is composed of Y.", Sentence(" is composed of the ", ".")),
    Entry("describes", "X describes Y (e.g., text describes a figure or object).", Sentence(" describes the entity ", ".")),
    Entry("references", "X references Y (e.g., text or document refers to an entity).", Sentence(" refers to the entity ", ".")),
    Entry("links_to", "X is connected to Y in a visual or logical flow.", Sentence(" is connected to the ", " in a flow.")),
    Entry("has_attribute", "X has the attribute Y (e.g., object has value, date, or property).", Sentence(" has the attribute ", ".")),
    Entry("defines", "X defines Y (e.g., term defines a concept).", Sentence(" defines the concept of ", ".")),
    Entry("is_a", "X is a type of Y (hierarchical classification).", Sentence(" is a ", ".")),
    Entry("used_for", "X is used for Y (functional relation).", Sentence(" is used for ", ".")),
    Entry("similar_to", "X is similar to Y.", Sentence(" is similar to the ", ".")),
    Entry("holding", "X is holding Y (interaction).", Sentence(" is holding the ", ".")),
    Entry("wearing", "X is wearing Y.", Sentence(" is wearing the ", ".")),
    Entry("riding", "X is riding Y.", Sentence(" is riding the ", "."))
  ]

  /** The registry after the entity formatter's module initialisation. */
  const EntityRegistry: Registry := RegisterAll([], EntityRelations)

  /** The 26 predicates of the entity formatter's registry are distinct and registered in order. */
  lemma EntityRegistryPredicates()
    ensures EntityRegistry == EntityRelations
    ensures Distinct(EntityRegistry)
    ensures |AllPredicates(EntityRegistry)| == 26
  {
    var c := EntityRelations;
    EntityRelationsDistinct();
    assert [] + c == c;
    RegisterAllFresh([], c);
  }

  /** Position of a name in the entity formatter's list, told by its fingerprint; -1 for others. */
  function EntityRank(name: string): (r: int)
  {
    var f := Fingerprint(name);
    if f == 7798892 then 0
    else if f == 8913010 then 1
    else if f == 5570657 then 2
    else if f == 5570658 then 3
    else if f == 6684777 then 4
    else if f == 8912995 then 5
    else if f == 2228335 then 6
    else if f == 5570677 then 7
    else if f == 6684770 then 8
    else if f == 12255337 then 9
    else if f == 7798894 then 10
    else if f == 12255329 then 11
    else if f == 7798896 then 12
    else if f == 8913000 then 13
    else if f == 12255331 then 14
    else if f == 10027108 then 15
    else if f == 11141234 then 16
    else if f == 8913004 then 17
    else if f == 14483560 then 18
    else if f == 7798884 then 19
    else if f == 4456553 then 20
    else if f == 8913013 then 21
    else if f == 11141235 then 22
    else if f == 7798888 then 23
    else if f == 7798903 then 24
    else if f == 6684786 then 25
    else -1
  }

  /** Position of a name in the relation formatter's list, told by its fingerprint; -1 for others. */
  function RelationRank(name: string): (r: int)
  {
    var f := Fingerprint(name);
    if f == 7798892 then 0
    else if f == 8913010 then 1
    else if f == 5570657 then 2
    else if f == 5570658 then 3
    else if f == 6684777 then 4
    else if f == 8912995 then 5
    else if f == 7798896 then 6
    else if f == 10027108 then 7
    else if f == 11141234 then 8
    else if f == 8913004 then 9
    else if f == 14483560 then 10
    else if f == 7798884 then 11
    else -1
  }

  lemma CanonicalRelationsDistinct()
    ensures Distinct(CanonicalRelations)
  {
    var c := CanonicalRelations;
    assert forall i :: 0 <= i < |c| ==> RelationRank(c[i].name) == i;
    DistinctByRank(c, RelationRank);
  }

  lemma EntityRelationsDistinct()
    ensures Distinct(EntityRelations)
  {
    var c := EntityRelations;
    assert forall i :: 0 <= i < |c| ==> EntityRank(c[i].name) == i;
    DistinctByRank(c, EntityRank);
  }

  /** Entries that each sit at their own rank have distinct names. */
  lemma DistinctByRank(reg: Registry, rank: string -> int)
    requires forall i :: 0 <= i < |reg| ==> rank(reg[i].name) == i
    ensures Distinct(reg)
  {
  }
}
