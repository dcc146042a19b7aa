/** `autonogy_constructor/utils.py`: `ontology_to_string`, the text form of
    an extraction payload. Only entities, data properties and object
    properties are printed; hierarchy edges and disjointness pairs are not. */
module OntologyText {
  import opened Wrappers
  import Removal
  import opened Text
  import opened Payload

  /** The concatenation of `f(x)` for the elements of `xs`, in order. */
  function FlatMap<T>(xs: seq<T>, f: T -> seq<string>): seq<string> {
    if xs == [] then [] else FlatMap(xs[..|xs| - 1], f) + f(xs[|xs| - 1])
  }

  lemma FlatMapSnoc<T>(xs: seq<T>, x: T, f: T -> seq<string>)
    ensures FlatMap(xs + [x], f) == FlatMap(xs, f) + f(x)
  {
    assert (xs + [x])[..|xs|] == xs;
  }

  /** One pass of a loop that appends the block of `xs[k]`. */
  lemma FlatMapStep<T>(result: seq<string>, acc: seq<string>, xs: seq<T>, k: nat, f: T -> seq<string>)
    requires k < |xs| && acc == result + FlatMap(xs[..k], f)
    ensures acc + f(xs[k]) == result + FlatMap(xs[..k + 1], f)
  {
    assert xs[..k + 1] == xs[..k] + [xs[k]];
    FlatMapSnoc(xs[..k], xs[k], f);
  }

  /** Two-line blocks put block `i` at lines `2*i` and `2*i + 1`. */
  lemma {:induction false} FlatMapPairs<T>(xs: seq<T>, f: T -> seq<string>)
    requires forall x :: x in xs ==> |f(x)| == 2
    ensures |FlatMap(xs, f)| == 2 * |xs|
    ensures forall i :: 0 <= i < |xs| ==>
              FlatMap(xs, f)[2 * i] == f(xs[i])[0] && FlatMap(xs, f)[2 * i + 1] == f(xs[i])[1]
  {
    if xs != [] {
      var n := |xs| - 1;
      var init := xs[..n];
      FlatMapPairs(init, f);
      forall i | 0 <= i < n
        ensures FlatMap(xs, f)[2 * i] == f(xs[i])[0] && FlatMap(xs, f)[2 * i + 1] == f(xs[i])[1]
      {
        assert init[i] == xs[i];
      }
    }
  }

  /** The same two-line blocks placed after one header line. */
  lemma HeadedPairs<T>(head: string, xs: seq<T>, f: T -> seq<string>, rest: seq<string>)
    requires forall x :: x in xs ==> |f(x)| == 2
    requires rest != []
    ensures var lines := [head] + FlatMap(xs, f) + rest;
            |lines| == 2 * |xs| + 1 + |rest| && lines[0] == head
            && (forall i :: 0 <= i < |xs| ==> lines[1 + 2 * i] == f(xs[i])[0] && lines[2 + 2 * i] == f(xs[i])[1])
            && lines[1 + 2 * |xs|] == rest[0]
  {
    FlatMapPairs(xs, f);
  }

  // ---------------------------------------------------------------------
  // What f-strings print
  // ---------------------------------------------------------------------

  /** `f"{x}"` for an optional string: `None` prints as `None`. */
  function OptText(s: Option<string>): string {
    match s
    case None => "None"
    case Some(t) => t
  }

  function ExistenceText(e: Existence): string {
    match e
    case ExistsTrue => "True"
    case ExistsFalse => "False"
    case ExistsBlank => ""
  }

  function TypeText(t: ExprType): string {
    match t
    case Union => "union"
    case Intersection => "intersection"
    case Single => "single"
  }

  function RestrictionText(r: RestrictionWord): string {
    match r
    case OnlyWord => "only"
    case SomeWord => "some"
    case BlankWord => ""
  }

  /** `"; ".join(f"{k}: {v}" for k, v in values.items())` */
  function ValuesText(values: seq<(string, string)>): string {
    Join(seq(|values|, i requires 0 <= i < |values| => values[i].0 + ": " + values[i].1), "; ")
  }

  // ---------------------------------------------------------------------
  // The lines of each part
  // ---------------------------------------------------------------------

  function EntityLines(e: Entity): seq<string> {
    ["  - Name: " + e.name, "    Information: " + OptText(e.information)]
  }

  function DataPropertyLines(p: DataProperty): seq<string> {
    ["  - Name: " + p.name]
    + (if p.values.Some? then ["    Values: " + ValuesText(p.values.value)] else [])
    + ["    Information: " + OptText(p.information)]
  }

  /** The block of a domain (`title` "Domain") or a range (`title` "Range"). */
  function EndpointLines(title: string, e: Endpoint): seq<string> {
    ["    " + title + ":", "      Existence: " + ExistenceText(e.existence)]
    + (if e.entity.Some? then ["      Entity: " + e.entity.value] else [])
    + (if e.kind.Some? then ["      Type: " + TypeText(e.kind.value)] else [])
  }

  function OptEndpointLines(title: string, e: Option<Endpoint>): seq<string> {
    if e.Some? then EndpointLines(title, e.value) else []
  }

  function ObjectPropertyLines(p: ObjectProperty): seq<string> {
    ["  - Name: " + p.name]
    + OptEndpointLines("Domain", p.domain) + OptEndpointLines("Range", p.range)
    + ["    Restriction: " + RestrictionText(p.restriction),
       "    Information: " + OptText(p.information)]
  }

  function DataSection(props: Option<seq<DataProperty>>): seq<string> {
    if props.Some? then FlatMap(props.value, DataPropertyLines) else []
  }

  /** The lines `ontology_to_string` collects; they read only the entities,
      the data properties and the object properties. */
  function OntologyLines(entities: seq<Entity>, dataProperties: Option<seq<DataProperty>>,
                         objectProperties: seq<ObjectProperty>): seq<string>
  {
    ["Entities:"] + FlatMap(entities, EntityLines)
    + ["\nData Properties:"] + DataSection(dataProperties)
    + ["\nObject Properties:"] + FlatMap(objectProperties, ObjectPropertyLines)
  }

  // ---------------------------------------------------------------------
  // ontology_to_string
  // ---------------------------------------------------------------------

  /** The domain or range part of the object-property loop. */
  method AppendEndpoint(result: seq<string>, title: string, e: Endpoint) returns (r: seq<string>)
    ensures r == result + EndpointLines(title, e)
  {
    r := result + ["    " + title + ":"];
    r := r + ["      Existence: " + ExistenceText(e.existence)];
    if e.entity.Some? {
      r := r + ["      Entity: " + e.entity.value];
    }
    if e.kind.Some? {
      r := r + ["      Type: " + TypeText(e.kind.value)];
    }
  }

  method AppendEntities(result: seq<string>, entities: seq<Entity>) returns (r: seq<string>)
    ensures r == result + FlatMap(entities, EntityLines)
  {
    r := result;
    var k := 0;
    assert entities[..0] == [];
    while k < |entities|
      invariant 0 <= k <= |entities|
      invariant r == result + FlatMap(entities[..k], EntityLines)
    {
      var e := entities[k];
      FlatMapStep(result, r, entities, k, EntityLines);
      r := r + ["  - Name: " + e.name];
      r := r + ["    Information: " + OptText(e.information)];
      k := k + 1;
    }
    Removal.WholePrefix(entities);
  }

  method AppendDataProperties(result: seq<string>, props: seq<DataProperty>) returns (r: seq<string>)
    ensures r == result + FlatMap(props, DataPropertyLines)
  {
    r := result;
    var k := 0;
    assert props[..0] == [];
    while k < |props|
      invariant 0 <= k <= |props|
      invariant r == result + FlatMap(props[..k], DataPropertyLines)
    {
      var p := props[k];
      ghost var before := r;
      r := r + ["  - Name: " + p.name];
      if p.values.Some? {
        r := r + ["    Values: " + ValuesText(p.values.value)];
      }
      r := r + ["    Information: " + OptText(p.information)];
      assert r == before + DataPropertyLines(p);
      FlatMapStep(result, before, props, k, DataPropertyLines);
      k := k + 1;
    }
    Removal.WholePrefix(props);
  }

  /** One pass of the object-property loop. */
  method AppendObjectProperty(result: seq<string>, p: ObjectProperty) returns (r: seq<string>)
    ensures r == result + ObjectPropertyLines(p)
  {
    r := result + ["  - Name: " + p.name];
    if p.domain.Some? {
      r := AppendEndpoint(r, "Domain", p.domain.value);
    }
    ghost var mid := r;
    assert mid == result + ["  - Name: " + p.name] + OptEndpointLines("Domain", p.domain);
    if p.range.Some? {
      r := AppendEndpoint(r, "Range", p.range.value);
    }
    assert r == mid + OptEndpointLines("Range", p.range);
    r := r + ["    Restriction: " + RestrictionText(p.restriction)];
    r := r + ["    Information: " + OptText(p.information)];
  }

  method AppendObjectProperties(result: seq<string>, props: seq<ObjectProperty>) returns (r: seq<string>)
    ensures r == result + FlatMap(props, ObjectPropertyLines)
  {
    r := result;
    var k := 0;
    assert props[..0] == [];
    while k < |props|
      invariant 0 <= k <= |props|
      invariant r == result + FlatMap(props[..k], ObjectPropertyLines)
    {
      FlatMapStep(result, r, props, k, ObjectPropertyLines);
      r := AppendObjectProperty(r, props[k]);
      k := k + 1;
    }
    Removal.WholePrefix(props);
  }

  /** `ontology_to_string` */
  method OntologyToString(o: Ontology) returns (r: string)
    ensures r == Join(OntologyLines(o.entities, o.dataProperties, o.objectProperties), "\n")
  {
    var result := ["Entities:"];
    result := AppendEntities(result, o.entities);
    result := result + ["\nData Properties:"];
    if o.dataProperties.Some? {
      result := AppendDataProperties(result, o.dataProperties.value);
    }
    result := result + ["\nObject Properties:"];
    assert result == ["Entities:"] + FlatMap(o.entities, EntityLines)
                     + ["\nData Properties:"] + DataSection(o.dataProperties) + ["\nObject Properties:"];
    result := AppendObjectProperties(result, o.objectProperties);
    r := Join(result, "\n");
  }

  // ---------------------------------------------------------------------
  // Properties of the printed form
  // ---------------------------------------------------------------------

  /** The text starts with `Entities:`, then exactly a Name line and an
      Information line per entity, in order, and then the Data Properties
      header, which is always printed. */
  lemma EntitiesFirst(entities: seq<Entity>, dataProperties: Option<seq<DataProperty>>,
                      objectProperties: seq<ObjectProperty>)
    ensures var lines := OntologyLines(entities, dataProperties, objectProperties);
            |lines| >= 2 * |entities| + 3
            && lines[0] == "Entities:"
            && (forall i :: 0 <= i < |entities| ==>
                  lines[1 + 2 * i] == "  - Name: " + entities[i].name
                  && lines[2 + 2 * i] == "    Information: " + OptText(entities[i].information))
            && lines[1 + 2 * |entities|] == "\nData Properties:"
  {
    var rest := ["\nData Properties:"] + DataSection(dataProperties)
                + ["\nObject Properties:"] + FlatMap(objectProperties, ObjectPropertyLines);
    assert OntologyLines(entities, dataProperties, objectProperties)
           == ["Entities:"] + FlatMap(entities, EntityLines) + rest;
    HeadedPairs("Entities:", entities, EntityLines, rest);
  }

  /** Data-property entries are printed only when the list is present, and
      the Object Properties header follows them. */
  lemma DataSectionPlace(entities: seq<Entity>, dataProperties: Option<seq<DataProperty>>,
                         objectProperties: seq<ObjectProperty>)
    ensures dataProperties.None? ==> DataSection(dataProperties) == []
    ensures var lines := OntologyLines(entities, dataProperties, objectProperties);
            var start := 2 + |FlatMap(entities, EntityLines)|;
            lines[start .. start + |DataSection(dataProperties)|] == DataSection(dataProperties)
            && lines[start + |DataSection(dataProperties)|] == "\nObject Properties:"
  {
    var lines := OntologyLines(entities, dataProperties, objectProperties);
    var front := ["Entities:"] + FlatMap(entities, EntityLines) + ["\nData Properties:"];
    assert lines == front + DataSection(dataProperties) + ["\nObject Properties:"]
                    + FlatMap(objectProperties, ObjectPropertyLines);
  }

  /** A data property prints its Name line first and its Information line
      last, with a Values line between them exactly when it has values. */
  lemma DataPropertyShape(p: DataProperty)
    ensures var lines := DataPropertyLines(p);
            |lines| == (if p.values.Some? then 3 else 2)
            && lines[0] == "  - Name: " + p.name
            && lines[|lines| - 1] == "    Information: " + OptText(p.information)
            && ((exists j :: 0 <= j < |lines| && StartsWith(lines[j], "    Values: ")) <==> p.values.Some?)
  {
    var lines := DataPropertyLines(p);
    if p.values.Some? {
      assert StartsWith(lines[1], "    Values: ");
    } else {
      forall j | 0 <= j < |lines| ensures !StartsWith(lines[j], "    Values: ") {
        if j == 0 {
          assert lines[j][2] == '-';
        } else {
          assert lines[j][4] == 'I';
        }
      }
    }
  }

  /** A domain or range block opens with its title line and always prints
      Existence; the Entity and Type lines appear exactly when those fields
      are present. */
  lemma EndpointShape(title: string, e: Endpoint)
    requires title == "Domain" || title == "Range"
    ensures var lines := EndpointLines(title, e);
            lines[0] == "    " + title + ":"
            && lines[1] == "      Existence: " + ExistenceText(e.existence)
            && |lines| == 2 + (if e.entity.Some? then 1 else 0) + (if e.kind.Some? then 1 else 0)
            && (e.entity.Some? <==> exists j :: 0 <= j < |lines| && StartsWith(lines[j], "      Entity: "))
            && (e.kind.Some? <==> exists j :: 0 <= j < |lines| && StartsWith(lines[j], "      Type: "))
  {
    var lines := EndpointLines(title, e);
    if e.entity.Some? {
      assert StartsWith(lines[2], "      Entity: ");
    }
    if e.kind.Some? {
      assert StartsWith(lines[|lines| - 1], "      Type: ");
    }
    forall j | 0 <= j < |lines|
      ensures StartsWith(lines[j], "      Entity: ") ==> e.entity.Some?
      ensures StartsWith(lines[j], "      Type: ") ==> e.kind.Some?
    {
      if j == 0 {
        assert |lines[j]| <= 11;
      } else if j == 1 {
        assert lines[j][6] == 'E' && lines[j][7] == 'x';
      } else if e.entity.Some? && j == 2 {
        assert lines[j][6] == 'E' && lines[j][7] == 'n';
      } else {
        assert lines[j][6] == 'T';
      }
    }
  }

  /** Inside an optional domain or range block, only the first line is a
      title line, and it names that block. */
  lemma OptEndpointTitles(title: string, e: Option<Endpoint>, other: string)
    requires title == "Domain" || title == "Range"
    requires other == "Domain" || other == "Range"
    ensures "    " + other + ":" in OptEndpointLines(title, e) <==> e.Some? && other == title
  {
    var heading := "    " + other + ":";
    if e.Some? {
      var lines := EndpointLines(title, e.value);
      forall j | 1 <= j < |lines| ensures lines[j] != heading {
        assert lines[j][4] == ' ' && heading[4] != ' ';
      }
      if other != title {
        assert |lines[0]| != |heading|;
      }
    }
  }

  /** An object property prints its Name line first and its Restriction and
      Information lines last; a Domain (Range) block appears exactly when
      it has a domain (range). */
  lemma ObjectPropertyShape(p: ObjectProperty)
    ensures var lines := ObjectPropertyLines(p);
            |lines| >= 3
            && lines[0] == "  - Name: " + p.name
            && lines[|lines| - 2] == "    Restriction: " + RestrictionText(p.restriction)
            && lines[|lines| - 1] == "    Information: " + OptText(p.information)
            && ("    Domain:" in lines <==> p.domain.Some?)
            && ("    Range:" in lines <==> p.range.Some?)
  {
    var name := "  - Name: " + p.name;
    var tail := ["    Restriction: " + RestrictionText(p.restriction), "    Information: " + OptText(p.information)];
    var d := OptEndpointLines("Domain", p.domain);
    var g := OptEndpointLines("Range", p.range);
    assert ObjectPropertyLines(p) == [name] + d + g + tail;
    assert "    " + "Domain" + ":" == "    Domain:" && "    " + "Range" + ":" == "    Range:";
    OptEndpointTitles("Domain", p.domain, "Domain");
    OptEndpointTitles("Domain", p.domain, "Range");
    OptEndpointTitles("Range", p.range, "Domain");
    OptEndpointTitles("Range", p.range, "Range");
    assert name[2] == '-';
    assert tail[0][4] == 'R' && tail[1][4] == 'I';
    assert "    Domain:" !in [name] + tail && "    Range:" !in [name] + tail;
  }
}
