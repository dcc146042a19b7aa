/** `autonogy_constructor/idea/query_team/ontology_tools.py`: the query
    helpers of `OntologyTools`, over an abstract class graph standing for the
    loaded ontology. */
module OntologyTools {
  import opened Wrappers
  import opened Ordering
  import opened Removal

  /** The value of a restriction, or of a property read off a class: one
      class, a list whose elements are classes (`Some(name)`) or other values
      (`None`), or any other value. */
  datatype Filler = ClassFiller(name: string) | Collection(members: seq<Option<string>>) | OtherFiller

  /** An entry of a class's `is_a` list. */
  datatype Parent = NamedParent(name: string) | RestrictionParent(property: string, value: Filler) | OtherParent

  /** An individual of `has_information`. */
  datatype Information = Information(content: string, source: string)

  /** What the helpers read off one class. `None` stands for an attribute
      the class does not have. */
  datatype ClassNode = ClassNode(
    isA: seq<Parent>,
    declaredProperties: seq<string>,
    information: Option<seq<string>>,
    source: Option<seq<string>>,
    hasInformation: Option<seq<Information>>,
    propertyValues: map<string, Filler>,
    disjoints: seq<seq<Option<string>>>)

  /** The ontology: its classes in `onto.classes()` order, each class by
      name, and its object properties in `onto.object_properties()` order. */
  datatype Graph = Graph(order: seq<string>, classes: map<string, ClassNode>, objectProperties: seq<string>)

  /** The class listing and the class table agree. */
  predicate Wf(g: Graph) {
    (forall c :: c in g.order ==> c in g.classes) && (forall c :: c in g.classes ==> c in g.order)
  }

  // ---------------------------------------------------------------------
  // Basic information
  // ---------------------------------------------------------------------

  datatype ClassInfo = ClassInfo(name: string, information: seq<string>, source: seq<string>)

  /** `get_class_info` */
  function GetClassInfo(g: Graph, name: string): (r: ClassInfo)
    requires name in g.classes
    ensures r.name == name
    ensures r.information == g.classes[name].information.GetOr([])
    ensures r.source == g.classes[name].source.GetOr([])
  {
    var node := g.classes[name];
    ClassInfo(name, node.information.GetOr([]), node.source.GetOr([]))
  }

  /** The contents of the records of `infos` that come from `source`. */
  function ContentsFrom(infos: seq<Information>, source: string): (r: seq<string>)
    ensures |r| <= |infos|
  {
    if infos == [] then []
    else (if infos[0].source == source then [infos[0].content] else []) + ContentsFrom(infos[1..], source)
  }

  /** Some record of `infos` from `source` carries `x`. */
  predicate FromSource(infos: seq<Information>, source: string, x: string) {
    exists i :: 0 <= i < |infos| && infos[i].source == source && infos[i].content == x
  }

  /** Whether a record comes from `source`. */
  function IsFrom(source: string): Information -> bool {
    (info: Information) => info.source == source
  }

  /** The contents of the records, in order. */
  function Contents(infos: seq<Information>): seq<string> {
    seq(|infos|, i requires 0 <= i < |infos| => infos[i].content)
  }

  /** `get_information_by_source`: the contents of exactly the records from
      `source`, in their order, repeats kept. A name the ontology does not
      know looks up `None`, which has no `has_information` either, so it
      gives nothing, like a class without the attribute. */
  function InformationBySource(g: Graph, name: string, source: string): (r: seq<string>)
    ensures name in g.classes && g.classes[name].hasInformation.Some? ==>
              r == Contents(Filter(g.classes[name].hasInformation.value, IsFrom(source)))
    ensures !(name in g.classes && g.classes[name].hasInformation.Some?) ==> r == []
    ensures forall x :: x in r <==>
              name in g.classes && g.classes[name].hasInformation.Some?
              && FromSource(g.classes[name].hasInformation.value, source, x)
  {
    if name in g.classes && g.classes[name].hasInformation.Some? then
      var infos := g.classes[name].hasInformation.value;
      forall x ensures x in ContentsFrom(infos, source) <==> FromSource(infos, source, x) {
        ContentsFromMembers(infos, source, x);
      }
      ContentsFromFiltered(infos, source);
      ContentsFrom(infos, source)
    else []
  }

  /** The comprehension is the contents of the records that pass the
      source filter: it keeps them in order and keeps repeats. */
  lemma {:induction false} ContentsFromFiltered(infos: seq<Information>, source: string)
    ensures ContentsFrom(infos, source) == Contents(Filter(infos, IsFrom(source)))
  {
    if infos != [] {
      ContentsFromFiltered(infos[1..], source);
      var head := if infos[0].source == source then [infos[0]] else [];
      var rest := Filter(infos[1..], IsFrom(source));
      assert Filter(infos, IsFrom(source)) == head + rest;
      assert Contents(head + rest) == Contents(head) + Contents(rest);
    }
  }

  /** The records of two lists give the contents of the first list, then
      those of the second. */
  lemma {:induction false} ContentsFromAppend(a: seq<Information>, b: seq<Information>, source: string)
    ensures ContentsFrom(a + b, source) == ContentsFrom(a, source) + ContentsFrom(b, source)
  {
    if a == [] {
      assert a + b == b;
    } else {
      assert (a + b)[0] == a[0] && (a + b)[1..] == a[1..] + b;
      ContentsFromAppend(a[1..], b, source);
      var head := if a[0].source == source then [a[0].content] else [];
      var rest, tail := ContentsFrom(a[1..], source), ContentsFrom(b, source);
      assert ContentsFrom(a + b, source) == head + (rest + tail);
      assert head + (rest + tail) == (head + rest) + tail;
    }
  }

  /** One record gives its content exactly when it is from `source`. */
  lemma ContentsFromOne(info: Information, source: string)
    ensures ContentsFrom([info], source) == if info.source == source then [info.content] else []
  {
  }

  /** The kept contents are exactly those of the records from `source`, in
      their order, the others dropped. */
  lemma {:induction false} ContentsFromMembers(infos: seq<Information>, source: string, x: string)
    ensures x in ContentsFrom(infos, source) <==> FromSource(infos, source, x)
  {
    if infos != [] {
      ContentsFromMembers(infos[1..], source, x);
      if exists i :: 0 <= i < |infos| && infos[i].source == source && infos[i].content == x {
        var i :| 0 <= i < |infos| && infos[i].source == source && infos[i].content == x;
        if i > 0 {
          assert infos[1..][i - 1] == infos[i];
        }
      }
      if exists i :: 0 <= i < |infos[1..]| && infos[1..][i].source == source && infos[1..][i].content == x {
        var i :| 0 <= i < |infos[1..]| && infos[1..][i].source == source && infos[1..][i].content == x;
        assert infos[i + 1] == infos[1..][i];
      }
    }
  }

  /** Every record from `source` contributes one entry. */
  lemma {:induction false} ContentsFromAll(infos: seq<Information>, source: string)
    requires forall i :: 0 <= i < |infos| ==> infos[i].source == source
    ensures |ContentsFrom(infos, source)| == |infos|
  {
    if infos != [] {
      ContentsFromAll(infos[1..], source);
    }
  }

  // ---------------------------------------------------------------------
  // Property operations
  // ---------------------------------------------------------------------

  /** The properties named by the restrictions among `parents`. */
  function RestrictionProperties(parents: seq<Parent>): set<string> {
    set i | 0 <= i < |parents| && parents[i].RestrictionParent? :: parents[i].property
  }

  lemma RestrictionPropertiesStep(parents: seq<Parent>, i: nat)
    requires i < |parents|
    ensures RestrictionProperties(parents[..i + 1]) ==
            RestrictionProperties(parents[..i])
            + (if parents[i].RestrictionParent? then {parents[i].property} else {})
  {
    var a, b := parents[..i + 1], parents[..i];
    forall p | p in RestrictionProperties(a)
      ensures p in RestrictionProperties(b) || (parents[i].RestrictionParent? && p == parents[i].property)
    {
      var k :| 0 <= k < |a| && a[k].RestrictionParent? && a[k].property == p;
      if k < i {
        assert b[k] == a[k];
      }
    }
    forall p | p in RestrictionProperties(b) ensures p in RestrictionProperties(a) {
      var k :| 0 <= k < |b| && b[k].RestrictionParent? && b[k].property == p;
      assert a[k] == b[k];
    }
    if parents[i].RestrictionParent? {
      assert a[i] == parents[i];
    }
  }

  /** `get_class_properties`: the restriction properties and the declared
      properties of the class, as a sorted list without repeats. */
  method ClassProperties(g: Graph, name: string) returns (r: seq<string>)
    requires name in g.classes
    ensures SortedStrict(r)
    ensures Elems(r) == RestrictionProperties(g.classes[name].isA) + Elems(g.classes[name].declaredProperties)
  {
    var node := g.classes[name];
    // the Python set, kept sorted
    var properties: seq<string> := [];
    var i := 0;
    while i < |node.isA|
      invariant 0 <= i <= |node.isA|
      invariant SortedStrict(properties)
      invariant Elems(properties) == RestrictionProperties(node.isA[..i])
    {
      RestrictionPropertiesStep(node.isA, i);
      if node.isA[i].RestrictionParent? {
        properties := Insert(properties, node.isA[i].property);
      }
      i := i + 1;
    }
    WholePrefix(node.isA);
    var j := 0;
    while j < |node.declaredProperties|
      invariant 0 <= j <= |node.declaredProperties|
      invariant SortedStrict(properties)
      invariant Elems(properties) == RestrictionProperties(node.isA) + Elems(node.declaredProperties[..j])
    {
      assert node.declaredProperties[..j + 1] == node.declaredProperties[..j] + [node.declaredProperties[j]];
      properties := Insert(properties, node.declaredProperties[j]);
      j := j + 1;
    }
    WholePrefix(node.declaredProperties);
    r := properties;
  }

  /** The names of the classes among `members`, in order. */
  function ClassNames(members: seq<Option<string>>): (r: seq<string>)
    ensures |r| <= |members|
  {
    if members == [] then []
    else ClassNames(members[..|members| - 1])
         + (if members[|members| - 1].Some? then [members[|members| - 1].value] else [])
  }

  /** The classes a filler names: itself when it is a class, its class
      elements when it is a list, none otherwise. */
  function FillerClasses(f: Filler): seq<string> {
    match f
    case ClassFiller(n) => [n]
    case Collection(members) => ClassNames(members)
    case OtherFiller => []
  }

  /** The classes the restrictions on `property` among `parents` name, in
      `is_a` order. */
  function RestrictionRelated(parents: seq<Parent>, property: string): seq<string> {
    if parents == [] then []
    else
      var p := parents[|parents| - 1];
      RestrictionRelated(parents[..|parents| - 1], property)
      + (if p.RestrictionParent? && p.property == property then FillerClasses(p.value) else [])
  }

  /** The `related` list `get_related_classes` builds for one property:
      restriction fillers first, then the property's direct value. */
  function RelatedVia(node: ClassNode, property: string): seq<string> {
    RestrictionRelated(node.isA, property)
    + (if property in node.propertyValues then FillerClasses(node.propertyValues[property]) else [])
  }

  /** The result of `get_related_classes`, one entry per object property
      with at least one related class, in property order, each list sorted
      and without repeats. */
  function Relations(node: ClassNode, properties: seq<string>): seq<(string, seq<string>)> {
    if properties == [] then []
    else
      var p := properties[|properties| - 1];
      var related := RelatedVia(node, p);
      Relations(node, properties[..|properties| - 1]) + (if related != [] then [(p, SortedSet(related))] else [])
  }

  lemma RelationsStep(node: ClassNode, properties: seq<string>, i: nat)
    requires i < |properties|
    ensures var related := RelatedVia(node, properties[i]);
            Relations(node, properties[..i + 1])
            == Relations(node, properties[..i]) + (if related != [] then [(properties[i], SortedSet(related))] else [])
  {
    PrefixSnoc(properties, i);
    PrefixOfPrefix(properties, i);
  }

  lemma RestrictionRelatedStep(parents: seq<Parent>, property: string, i: nat)
    requires i < |parents|
    ensures RestrictionRelated(parents[..i + 1], property)
            == RestrictionRelated(parents[..i], property)
               + (if parents[i].RestrictionParent? && parents[i].property == property
                  then FillerClasses(parents[i].value) else [])
  {
    PrefixSnoc(parents, i);
    PrefixOfPrefix(parents, i);
  }

  lemma ClassNamesStep(members: seq<Option<string>>, i: nat)
    requires i < |members|
    ensures ClassNames(members[..i + 1])
            == ClassNames(members[..i]) + (if members[i].Some? then [members[i].value] else [])
  {
    PrefixSnoc(members, i);
    PrefixOfPrefix(members, i);
  }

  /** `related.extend(v.name for v in values if isinstance(v, ThingClass))` */
  method ExtendWithClasses(related: seq<string>, members: seq<Option<string>>) returns (r: seq<string>)
    ensures r == related + ClassNames(members)
  {
    r := related;
    var k := 0;
    assert members[..0] == [];
    while k < |members|
      invariant 0 <= k <= |members|
      invariant r == related + ClassNames(members[..k])
    {
      ClassNamesStep(members, k);
      if members[k].Some? {
        r := r + [members[k].value];
      }
      k := k + 1;
    }
    WholePrefix(members);
  }

  /** The inner loop of `get_related_classes`: the fillers of the
      restrictions on `prop`. */
  method RestrictionRelatedOf(parents: seq<Parent>, prop: string) returns (related: seq<string>)
    ensures related == RestrictionRelated(parents, prop)
  {
    related := [];
    var j := 0;
    assert parents[..0] == [];
    while j < |parents|
      invariant 0 <= j <= |parents|
      invariant related == RestrictionRelated(parents[..j], prop)
    {
      RestrictionRelatedStep(parents, prop, j);
      var r := parents[j];
      if r.RestrictionParent? && r.property == prop {
        match r.value {
          case ClassFiller(n) => related := related + [n];
          case Collection(members) => related := ExtendWithClasses(related, members);
          case OtherFiller =>
        }
      }
      j := j + 1;
    }
    WholePrefix(parents);
  }

  /** The `related` list of `get_related_classes` for one property. */
  method RelatedOf(node: ClassNode, prop: string) returns (related: seq<string>)
    ensures related == RelatedVia(node, prop)
  {
    related := RestrictionRelatedOf(node.isA, prop);
    if prop in node.propertyValues {
      match node.propertyValues[prop] {
        case Collection(members) => related := ExtendWithClasses(related, members);
        case ClassFiller(n) => related := related + [n];
        case OtherFiller =>
      }
    }
  }

  /** `get_related_classes` */
  method RelatedClasses(g: Graph, name: string) returns (relations: seq<(string, seq<string>)>)
    requires name in g.classes
    ensures relations == Relations(g.classes[name], g.objectProperties)
  {
    var node := g.classes[name];
    var props := g.objectProperties;
    relations := [];
    var i := 0;
    assert props[..0] == [];
    while i < |props|
      invariant 0 <= i <= |props|
      invariant relations == Relations(node, props[..i])
    {
      var related := RelatedOf(node, props[i]);
      RelationsStep(node, props, i);
      if related != [] {
        relations := relations + [(props[i], SortedSet(related))];
      }
      i := i + 1;
    }
    WholePrefix(props);
  }

  /** A property is listed iff some class is related through it, and its
      list holds exactly those classes, sorted and without repeats. */
  lemma RelationsShape(node: ClassNode, properties: seq<string>)
    ensures forall k :: 0 <= k < |Relations(node, properties)| ==>
              var (p, cs) := Relations(node, properties)[k];
              p in properties && RelatedVia(node, p) != [] && SortedStrict(cs) && Elems(cs) == Elems(RelatedVia(node, p))
    ensures forall p :: p in properties && RelatedVia(node, p) != [] ==>
              exists k :: 0 <= k < |Relations(node, properties)| && Relations(node, properties)[k].0 == p
  {
    RelationsSound(node, properties);
    RelationsComplete(node, properties);
    forall p | p in properties && RelatedVia(node, p) != []
      ensures exists k :: 0 <= k < |Relations(node, properties)| && Relations(node, properties)[k].0 == p
    {
      var k :| 0 <= k < |Relations(node, properties)| && Relations(node, properties)[k].0 == p;
    }
  }

  /** The last property adds its entry, if any, after the others. */
  lemma RelationsLast(node: ClassNode, properties: seq<string>)
    requires properties != []
    ensures var p := properties[|properties| - 1];
            Relations(node, properties)
            == Relations(node, properties[..|properties| - 1])
               + (if RelatedVia(node, p) != [] then [(p, SortedSet(RelatedVia(node, p)))] else [])
  {
  }

  /** Every listed property relates some class, and its list is sorted,
      without repeats, and holds exactly those classes. */
  lemma {:induction false} RelationsSound(node: ClassNode, properties: seq<string>)
    ensures forall k :: 0 <= k < |Relations(node, properties)| ==>
              var (p, cs) := Relations(node, properties)[k];
              p in properties && RelatedVia(node, p) != [] && SortedStrict(cs) && Elems(cs) == Elems(RelatedVia(node, p))
  {
    if properties != [] {
      var n := |properties| - 1;
      var init := properties[..n];
      RelationsSound(node, init);
      var before := Relations(node, init);
      var after := Relations(node, properties);
      RelationsLast(node, properties);
      forall k | 0 <= k < |after|
        ensures var (q, cs) := after[k];
                q in properties && RelatedVia(node, q) != [] && SortedStrict(cs) && Elems(cs) == Elems(RelatedVia(node, q))
      {
        if k < |before| {
          assert after[k] == before[k];
          assert before[k].0 in init;
        }
      }
    }
  }

  /** Every property that relates some class is listed. */
  lemma {:induction false} RelationsComplete(node: ClassNode, properties: seq<string>)
    ensures forall p :: p in properties && RelatedVia(node, p) != [] ==>
              exists k :: 0 <= k < |Relations(node, properties)| && Relations(node, properties)[k].0 == p
  {
    if properties != [] {
      var n := |properties| - 1;
      var init := properties[..n];
      RelationsComplete(node, init);
      var before := Relations(node, init);
      var after := Relations(node, properties);
      var p := properties[n];
      RelationsLast(node, properties);
      forall q | q in properties && RelatedVia(node, q) != []
        ensures exists k :: 0 <= k < |after| && after[k].0 == q
      {
        if q != p {
          assert q in init;
          var k :| 0 <= k < |before| && before[k].0 == q;
          assert after[k] == before[k];
        } else {
          assert after[|before|].0 == q;
        }
      }
    }
  }

  // ---------------------------------------------------------------------
  // Disjoint classes
  // ---------------------------------------------------------------------

  /** The classes named by the disjointness axioms of a class, in order. */
  function DisjointList(ds: seq<seq<Option<string>>>): seq<string> {
    if ds == [] then [] else DisjointList(ds[..|ds| - 1]) + ClassNames(ds[|ds| - 1])
  }

  lemma DisjointListStep(ds: seq<seq<Option<string>>>, i: nat)
    requires i < |ds|
    ensures DisjointList(ds[..i + 1]) == DisjointList(ds[..i]) + ClassNames(ds[i])
  {
    PrefixSnoc(ds, i);
    PrefixOfPrefix(ds, i);
  }

  /** The inner loop of `get_disjoint_classes`: adds the classes among
      `entities` to the set `disjoint`, kept sorted. */
  method AddClassNames(disjoint: seq<string>, entities: seq<Option<string>>) returns (r: seq<string>)
    requires SortedStrict(disjoint)
    ensures SortedStrict(r)
    ensures Elems(r) == Elems(disjoint) + Elems(ClassNames(entities))
  {
    r := disjoint;
    var j := 0;
    assert entities[..0] == [];
    while j < |entities|
      invariant 0 <= j <= |entities|
      invariant SortedStrict(r)
      invariant Elems(r) == Elems(disjoint) + Elems(ClassNames(entities[..j]))
    {
      ClassNamesStep(entities, j);
      if entities[j].Some? {
        r := Insert(r, entities[j].value);
      }
      j := j + 1;
    }
    WholePrefix(entities);
  }

  /** `get_disjoint_classes`: the classes declared disjoint with the class,
      the class itself removed, sorted and without repeats. */
  method DisjointClasses(g: Graph, name: string) returns (r: seq<string>)
    requires name in g.classes
    ensures SortedStrict(r)
    ensures Elems(r) == Elems(DisjointList(g.classes[name].disjoints)) - {name}
    ensures name !in r
  {
    var ds := g.classes[name].disjoints;
    // the Python set, kept sorted
    var disjoint: seq<string> := [];
    var i := 0;
    assert ds[..0] == [];
    while i < |ds|
      invariant 0 <= i <= |ds|
      invariant SortedStrict(disjoint)
      invariant Elems(disjoint) == Elems(DisjointList(ds[..i]))
    {
      DisjointListStep(ds, i);
      disjoint := AddClassNames(disjoint, ds[i]);
      i := i + 1;
    }
    WholePrefix(ds);
    r := Discard(disjoint, name);
    assert name !in Elems(r);
  }

  // ---------------------------------------------------------------------
  // Property paths
  // ---------------------------------------------------------------------

  /** If `n` is a class, then so is every class related to it through `p`. */
  ghost predicate EdgeKnown(g: Graph, n: string, p: string, c: string) {
    n in g.classes && c in RelatedVia(g.classes[n], p) ==> c in g.classes
  }

  /** Every class a relation points to is a class of the ontology. */
  ghost predicate Closed(g: Graph) {
    forall n, p, c {:trigger EdgeKnown(g, n, p, c)} :: EdgeKnown(g, n, p, c)
  }

  /** The paths the nested `dfs` of `get_property_path` records, from
      `current` with `visited` as it stands at the call. (A class missing
      from the ontology makes the source fail; `Dfs` excludes it, and here
      it records nothing.) */
  function Explore(g: Graph, maxDepth: int, visited: set<string>, current: string, target: string,
                   path: seq<string>, depth: int): seq<seq<string>>
    decreases maxDepth + 1 - depth, 2, 0
  {
    if depth > maxDepth then []
    else if current == target then [path]
    else if current in visited || current !in g.classes then []
    else ExploreProperties(g, maxDepth, visited + {current}, Relations(g.classes[current], g.objectProperties),
                           target, path, depth)
  }

  /** The outer loop of `dfs`, over the related-classes entries. */
  function ExploreProperties(g: Graph, maxDepth: int, visited: set<string>, relations: seq<(string, seq<string>)>,
                             target: string, path: seq<string>, depth: int): seq<seq<string>>
    requires depth <= maxDepth
    decreases maxDepth + 1 - depth, 1, |relations|
  {
    if relations == [] then []
    else
      var last := relations[|relations| - 1];
      ExploreProperties(g, maxDepth, visited, relations[..|relations| - 1], target, path, depth)
      + ExploreClasses(g, maxDepth, visited, last.0, last.1, target, path, depth)
  }

  /** The inner loop of `dfs`, over the classes related through `prop`. */
  function ExploreClasses(g: Graph, maxDepth: int, visited: set<string>, prop: string, related: seq<string>,
                          target: string, path: seq<string>, depth: int): seq<seq<string>>
    requires depth <= maxDepth
    decreases maxDepth + 1 - depth, 0, |related|
  {
    if related == [] then []
    else
      var c := related[|related| - 1];
      ExploreClasses(g, maxDepth, visited, prop, related[..|related| - 1], target, path, depth)
      + (if c !in visited then Explore(g, maxDepth, visited, c, target, path + [prop], depth + 1) else [])
  }

  /** The classes an entry of the related-classes result lists are classes
      of the ontology. */
  lemma RelatedIn(g: Graph, from: string)
    requires Closed(g) && from in g.classes
    ensures var rel := Relations(g.classes[from], g.objectProperties);
            forall i, c :: 0 <= i < |rel| && c in rel[i].1 ==> c in g.classes
  {
    var node := g.classes[from];
    var rel := Relations(node, g.objectProperties);
    RelationsShape(node, g.objectProperties);
    forall i, c | 0 <= i < |rel| && c in rel[i].1 ensures c in g.classes {
      assert c in Elems(rel[i].1);
      assert EdgeKnown(g, from, rel[i].0, c);
    }
  }

  /** The search state of `get_property_path`: the `paths` list and the
      `visited` set the nested `dfs` shares. */
  class PathSearch {
    const g: Graph
    const maxDepth: int
    var paths: seq<seq<string>>
    var visited: set<string>
    /** Whether the ontology is closed under its relations. */
    ghost const closed: bool := Closed(g)

    constructor (g: Graph, maxDepth: int)
      ensures this.g == g && this.maxDepth == maxDepth
      ensures paths == [] && visited == {}
    {
      this.g := g;
      this.maxDepth := maxDepth;
      paths := [];
      visited := {};
    }

    /** `dfs`: records the paths found from `current` and leaves `visited`
        as it found it. */
    method Dfs(current: string, target: string, path: seq<string>, depth: int)
      requires closed
      requires current in g.classes || current == target || current in visited || depth > maxDepth
      modifies this
      decreases maxDepth + 1 - depth, 2
      ensures visited == old(visited)
      ensures paths == old(paths) + Explore(g, maxDepth, old(visited), current, target, path, depth)
    {
      if depth > maxDepth {
        return;
      }
      if current == target {
        paths := paths + [path];
        return;
      }
      if current in visited {
        return;
      }
      visited := visited + {current};
      var relations := RelatedClasses(g, current);
      RelatedIn(g, current);
      ExploreRelations(relations, target, path, depth);
      visited := visited - {current};
    }

    /** The outer loop of `dfs`, over the related-classes entries. */
    method ExploreRelations(relations: seq<(string, seq<string>)>, target: string, path: seq<string>, depth: int)
      requires closed && depth <= maxDepth
      requires forall i, c :: 0 <= i < |relations| && c in relations[i].1 ==> c in g.classes
      modifies this
      decreases maxDepth + 1 - depth, 1
      ensures visited == old(visited)
      ensures paths == old(paths) + ExploreProperties(g, maxDepth, visited, relations, target, path, depth)
    {
      var i := 0;
      assert relations[..0] == [];
      while i < |relations|
        invariant 0 <= i <= |relations|
        invariant visited == old(visited)
        invariant paths == old(paths) + ExploreProperties(g, maxDepth, visited, relations[..i], target, path, depth)
      {
        ExplorePropertiesStep(g, maxDepth, visited, relations, target, path, depth, i);
        ExploreRelated(relations[i].0, relations[i].1, target, path, depth);
        i := i + 1;
      }
      WholePrefix(relations);
    }

    /** The inner loop of `dfs`: searches on from each class related
        through `prop` that is not yet visited. */
    method ExploreRelated(prop: string, related: seq<string>, target: string, path: seq<string>, depth: int)
      requires closed && depth <= maxDepth
      requires forall c :: c in related ==> c in g.classes
      modifies this
      decreases maxDepth + 1 - depth, 0
      ensures visited == old(visited)
      ensures paths == old(paths) + ExploreClasses(g, maxDepth, visited, prop, related, target, path, depth)
    {
      ghost var seen, found := visited, paths;
      var j := 0;
      assert related[..0] == [];
      while j < |related|
        invariant 0 <= j <= |related|
        invariant visited == seen
        invariant paths == found + ExploreClasses(g, maxDepth, seen, prop, related[..j], target, path, depth)
      {
        ExploreClassesStep(g, maxDepth, seen, prop, related, target, path, depth, j);
        var c := related[j];
        assert c in g.classes;
        ghost var before := ExploreClasses(g, maxDepth, seen, prop, related[..j], target, path, depth);
        ghost var more := if c !in seen then Explore(g, maxDepth, seen, c, target, path + [prop], depth + 1) else [];
        if c !in visited {
          Dfs(c, target, path + [prop], depth + 1);
        }
        JoinStep(paths, found, before, more, ExploreClasses(g, maxDepth, seen, prop, related[..j + 1], target, path, depth));
        j := j + 1;
      }
      WholePrefix(related);
    }
  }

  /** Paths appended in two steps are the paths of the two steps joined. */
  lemma JoinStep(paths: seq<seq<string>>, found: seq<seq<string>>, before: seq<seq<string>>, more: seq<seq<string>>,
                 after: seq<seq<string>>)
    requires paths == found + before + more && after == before + more
    ensures paths == found + after
  {
  }

  lemma ExplorePropertiesStep(g: Graph, maxDepth: int, visited: set<string>, relations: seq<(string, seq<string>)>,
                              target: string, path: seq<string>, depth: int, i: nat)
    requires depth <= maxDepth && i < |relations|
    ensures ExploreProperties(g, maxDepth, visited, relations[..i + 1], target, path, depth)
            == ExploreProperties(g, maxDepth, visited, relations[..i], target, path, depth)
               + ExploreClasses(g, maxDepth, visited, relations[i].0, relations[i].1, target, path, depth)
  {
    PrefixSnoc(relations, i);
    PrefixOfPrefix(relations, i);
  }

  lemma ExploreClassesStep(g: Graph, maxDepth: int, visited: set<string>, prop: string, related: seq<string>,
                           target: string, path: seq<string>, depth: int, j: nat)
    requires depth <= maxDepth && j < |related|
    ensures ExploreClasses(g, maxDepth, visited, prop, related[..j + 1], target, path, depth)
            == ExploreClasses(g, maxDepth, visited, prop, related[..j], target, path, depth)
               + (if related[j] !in visited then Explore(g, maxDepth, visited, related[j], target, path + [prop], depth + 1) else [])
  {
    PrefixSnoc(related, j);
    PrefixOfPrefix(related, j);
  }

  /** `get_property_path` */
  method PropertyPath(g: Graph, startClass: string, endClass: string, maxDepth: int := 5) returns (paths: seq<seq<string>>)
    requires Closed(g) && (startClass in g.classes || startClass == endClass || maxDepth < 0)
    ensures paths == Explore(g, maxDepth, {}, startClass, endClass, [], 0)
  {
    var search := new PathSearch(g, maxDepth);
    assert search.closed;
    search.Dfs(startClass, endClass, [], 0);
    paths := search.paths;
  }

  /** From a class to itself the search records exactly the empty path,
      unless the depth bound is negative, when it records nothing. */
  lemma SameEnds(g: Graph, c: string, maxDepth: int)
    ensures Explore(g, maxDepth, {}, c, c, [], 0) == if maxDepth >= 0 then [[]] else []
  {
  }

  /** `props` leads from `from` to `to` without passing a class twice or
      through `avoid`: each property relates the class reached so far,
      which is neither the end nor met before, to the next one. */
  ghost predicate SimpleWalk(g: Graph, from: string, props: seq<string>, to: string, avoid: set<string>)
    decreases |props|
  {
    if props == [] then from == to
    else
      from != to && from !in avoid && from in g.classes
      && exists c :: c in RelatedVia(g.classes[from], props[0]) && SimpleWalk(g, c, props[1..], to, avoid + {from})
  }

  /** Each class an entry of the related-classes result lists is related
      through that entry's property. */
  lemma RelatedEntry(node: ClassNode, properties: seq<string>, k: nat, c: string)
    requires k < |Relations(node, properties)| && c in Relations(node, properties)[k].1
    ensures c in RelatedVia(node, Relations(node, properties)[k].0)
  {
    RelationsShape(node, properties);
    assert c in Elems(Relations(node, properties)[k].1);
  }

  /** Every path the search records from `current` extends `path` by a
      simple walk from `current` to the target that avoids `visited` and is
      no longer than the depth left. */
  lemma {:induction false} ExploreSound(g: Graph, maxDepth: int, visited: set<string>, current: string, target: string,
                                        path: seq<string>, depth: int, q: seq<string>)
    requires q in Explore(g, maxDepth, visited, current, target, path, depth)
    ensures |path| <= |q| && q[..|path|] == path
    ensures |q| - |path| <= maxDepth - depth
    ensures SimpleWalk(g, current, q[|path|..], target, visited)
    decreases maxDepth + 1 - depth, 2, 0
  {
    if depth > maxDepth {
    } else if current == target {
      assert q == path;
      assert q[|path|..] == [];
    } else if current in visited || current !in g.classes {
    } else {
      var node := g.classes[current];
      var rel := Relations(node, g.objectProperties);
      forall k, c | 0 <= k < |rel| && c in rel[k].1 ensures c in RelatedVia(g.classes[current], rel[k].0) {
        RelatedEntry(node, g.objectProperties, k, c);
      }
      ExplorePropertiesSound(g, maxDepth, visited + {current}, rel, target, path, depth, q, current);
      var rest := q[|path|..];
      assert rest[1..] == q[|path| + 1..];
    }
  }

  lemma {:induction false} ExplorePropertiesSound(g: Graph, maxDepth: int, visited: set<string>,
                                                  relations: seq<(string, seq<string>)>, target: string,
                                                  path: seq<string>, depth: int, q: seq<string>, from: string)
    requires depth <= maxDepth && from in g.classes
    requires forall k, c :: 0 <= k < |relations| && c in relations[k].1 ==> c in RelatedVia(g.classes[from], relations[k].0)
    requires q in ExploreProperties(g, maxDepth, visited, relations, target, path, depth)
    ensures |path| < |q| && q[..|path|] == path
    ensures |q| - |path| <= maxDepth - depth
    ensures exists c :: c in RelatedVia(g.classes[from], q[|path|]) && SimpleWalk(g, c, q[|path| + 1..], target, visited)
    decreases maxDepth + 1 - depth, 1, |relations|
  {
    var n := |relations| - 1;
    var init := relations[..n];
    if q in ExploreProperties(g, maxDepth, visited, init, target, path, depth) {
      forall k, c | 0 <= k < |init| && c in init[k].1 ensures c in RelatedVia(g.classes[from], init[k].0) {
        assert init[k] == relations[k];
      }
      ExplorePropertiesSound(g, maxDepth, visited, init, target, path, depth, q, from);
    } else {
      ExploreClassesSound(g, maxDepth, visited, relations[n].0, relations[n].1, target, path, depth, q, from);
    }
  }

  lemma {:induction false} ExploreClassesSound(g: Graph, maxDepth: int, visited: set<string>, prop: string,
                                               related: seq<string>, target: string,
                                               path: seq<string>, depth: int, q: seq<string>, from: string)
    requires depth <= maxDepth && from in g.classes
    requires forall c :: c in related ==> c in RelatedVia(g.classes[from], prop)
    requires q in ExploreClasses(g, maxDepth, visited, prop, related, target, path, depth)
    ensures |path| < |q| && q[..|path|] == path
    ensures |q| - |path| <= maxDepth - depth
    ensures exists c :: c in RelatedVia(g.classes[from], q[|path|]) && SimpleWalk(g, c, q[|path| + 1..], target, visited)
    decreases maxDepth + 1 - depth, 0, |related|
  {
    var n := |related| - 1;
    var init := related[..n];
    if q in ExploreClasses(g, maxDepth, visited, prop, init, target, path, depth) {
      ExploreClassesSound(g, maxDepth, visited, prop, init, target, path, depth, q, from);
    } else {
      var c := related[n];
      var longer := path + [prop];
      ExploreSound(g, maxDepth, visited, c, target, longer, depth + 1, q);
      assert q[..|path|] == q[..|longer|][..|path|];
      assert q[|path|] == q[..|longer|][|path|] == prop;
      assert |longer| == |path| + 1;
      assert c in RelatedVia(g.classes[from], q[|path|]) && SimpleWalk(g, c, q[|path| + 1..], target, visited);
    }
  }

  /** `get_property_path` returns simple walks from the start class to the
      end class of at most `maxDepth` properties. */
  lemma PropertyPathSound(g: Graph, startClass: string, endClass: string, maxDepth: int, q: seq<string>)
    requires q in Explore(g, maxDepth, {}, startClass, endClass, [], 0)
    ensures |q| <= maxDepth
    ensures SimpleWalk(g, startClass, q, endClass, {})
  {
    ExploreSound(g, maxDepth, {}, startClass, endClass, [], 0, q);
    assert q[0..] == q;
  }

  // ---------------------------------------------------------------------
  // Hierarchy
  // ---------------------------------------------------------------------

  /** The named classes among `parents`, in order. */
  function NamedParents(parents: seq<Parent>): (r: seq<string>)
    ensures |r| <= |parents|
  {
    if parents == [] then []
    else (if parents[0].NamedParent? then [parents[0].name] else []) + NamedParents(parents[1..])
  }

  lemma {:induction false} NamedParentsMembers(parents: seq<Parent>, n: string)
    ensures n in NamedParents(parents) <==> NamedParent(n) in parents
  {
    if parents != [] {
      NamedParentsMembers(parents[1..], n);
      assert parents == [parents[0]] + parents[1..];
    }
  }

  /** `get_parents`: the named classes among the class's `is_a` entries. */
  function Parents(g: Graph, name: string): (r: seq<string>)
    requires name in g.classes
    ensures forall n :: n in r <==> NamedParent(n) in g.classes[name].isA
  {
    forall n ensures n in NamedParents(g.classes[name].isA) <==> NamedParent(n) in g.classes[name].isA {
      NamedParentsMembers(g.classes[name].isA, n);
    }
    NamedParents(g.classes[name].isA)
  }

  /** Whether class `c` lists `name` among its parents. */
  predicate SubclassOf(g: Graph, name: string, c: string) {
    c in g.classes && NamedParent(name) in g.classes[c].isA
  }

  /** `get_children`: the direct subclasses, in class order. A class is a
      child exactly when it lists `name` among its parents. */
  function Children(g: Graph, name: string): (r: seq<string>)
    requires Wf(g) && name in g.classes
    ensures r == Filter(g.order, c => SubclassOf(g, name, c))
    ensures forall c :: c in r <==> c in g.classes && name in Parents(g, c)
  {
    var kids := Filter(g.order, c => SubclassOf(g, name, c));
    forall c ensures c in kids <==> c in g.classes && name in Parents(g, c) {
      if c in kids {
        FilterMember(g.order, c => SubclassOf(g, name, c), c);
      }
      if c in g.classes && name in Parents(g, c) {
        FilterContains(g.order, c => SubclassOf(g, name, c), c);
      }
    }
    kids
  }

  predicate IsTop(g: Graph, c: string) {
    c in g.classes && Parents(g, c) == []
  }

  /** `top_classes`: the classes without a named parent, in class order;
      a class is listed exactly when it has none. */
  function TopClasses(g: Graph): (r: seq<string>)
    requires Wf(g)
    ensures r == Filter(g.order, c => IsTop(g, c))
    ensures forall c :: c in r <==> c in g.classes && Parents(g, c) == []
  {
    var tops := Filter(g.order, c => IsTop(g, c));
    forall c ensures c in tops <==> c in g.classes && Parents(g, c) == [] {
      if c in tops {
        FilterMember(g.order, c => IsTop(g, c), c);
      }
      if c in g.classes && Parents(g, c) == [] {
        FilterContains(g.order, c => IsTop(g, c), c);
      }
    }
    tops
  }

  /** A node of the tree `build_tree` returns. */
  datatype Tree = Tree(name: string, info: ClassInfo, children: seq<Tree>)

  /** `rank` strictly decreases from a class to each of its subclasses, so
      the hierarchy has no cycle and `build_tree` terminates. */
  ghost predicate Ranked(g: Graph, rank: map<string, nat>) {
    forall n, c :: SubclassOf(g, n, c) ==> n in rank && c in rank && rank[c] < rank[n]
  }

  /** `build_tree`: a node for the class, carrying its class info, with
      one child tree per direct subclass, in class order. */
  function BuildTree(g: Graph, name: string, ghost rank: map<string, nat>): (t: Tree)
    requires Wf(g) && Ranked(g, rank) && name in g.classes && name in rank
    ensures t.name == name && t.info == GetClassInfo(g, name)
    ensures |t.children| == |Children(g, name)|
    ensures forall i :: 0 <= i < |t.children| ==> t.children[i].name == Children(g, name)[i]
    decreases rank[name] + 1, 0
  {
    var kids := Children(g, name);
    forall c | c in kids ensures c in g.classes && SubclassOf(g, name, c) && c in rank && rank[c] < rank[name] {
    }
    Tree(name, GetClassInfo(g, name), BuildForest(g, kids, rank, rank[name]))
  }

  /** `[build_tree(c) for c in names]`: one tree per name, in order. */
  function BuildForest(g: Graph, names: seq<string>, ghost rank: map<string, nat>, ghost bound: nat): (r: seq<Tree>)
    requires Wf(g) && Ranked(g, rank)
    requires forall c :: c in names ==> c in g.classes && c in rank && rank[c] < bound
    ensures |r| == |names|
    ensures forall i :: 0 <= i < |r| ==> r[i].name == names[i]
    decreases bound, 1, |names|
  {
    if names == [] then []
    else
      var head := BuildTree(g, names[0], rank);
      var rest := BuildForest(g, names[1..], rank, bound);
      ConsNames(head, rest, names);
      [head] + rest
  }

  /** A tree named after the first name, followed by trees named after the
      other names in order, is named after all of them in order. */
  lemma ConsNames(head: Tree, rest: seq<Tree>, names: seq<string>)
    requires names != [] && head.name == names[0] && |rest| == |names| - 1
    requires forall i :: 0 <= i < |rest| ==> rest[i].name == names[1..][i]
    ensures forall i :: 0 <= i < |names| ==> ([head] + rest)[i].name == names[i]
  {
    forall i | 0 < i < |names| ensures ([head] + rest)[i].name == names[i] {
      assert ([head] + rest)[i] == rest[i - 1];
    }
  }

  /** The result of `parse_hierarchy_structure`: one tree, or the forest of
      the top classes. */
  datatype Hierarchy = Rooted(tree: Tree) | TopLevel(trees: seq<Tree>)

  /** `parse_hierarchy_structure`: with a root, the faithful tree of the
      root; with a missing or empty root (which is falsy), one faithful tree
      per top class, in class order. */
  function ParseHierarchy(g: Graph, root: Option<string>, ghost rank: map<string, nat>): (h: Hierarchy)
    requires Wf(g) && Ranked(g, rank)
    requires root.Some? && root.value != "" ==> root.value in g.classes && root.value in rank
    requires forall c :: c in g.classes ==> c in rank
    ensures root.Some? && root.value != "" ==>
              h.Rooted? && h.tree.name == root.value && FaithfulTree(g, h.tree)
    ensures !(root.Some? && root.value != "") ==>
              h.TopLevel? && |h.trees| == |TopClasses(g)|
              && forall i :: 0 <= i < |h.trees| ==> h.trees[i].name == TopClasses(g)[i] && FaithfulTree(g, h.trees[i])
  {
    if root.Some? && root.value != "" then
      BuildTreeFaithful(g, root.value, rank);
      Rooted(BuildTree(g, root.value, rank))
    else
      var tops := TopClasses(g);
      var bound := Bound(g.order, rank);
      BuildForestFaithful(g, tops, rank, bound);
      TopLevel(BuildForest(g, tops, rank, bound))
  }

  /** One more than the rank of every listed class. */
  function Bound(names: seq<string>, rank: map<string, nat>): (b: nat)
    requires forall c :: c in names ==> c in rank
    ensures forall c :: c in names ==> rank[c] < b
  {
    if names == [] then 0
    else
      var rest := Bound(names[1..], rank);
      assert forall c :: c in names ==> c == names[0] || c in names[1..];
      if rank[names[0]] < rest then rest else rank[names[0]] + 1
  }

  /** Every node of a tree names a class, carries that class's information
      and has one child per direct subclass, in class order: every edge goes
      from a class to one of its subclasses and no subclass is left out. */
  ghost predicate FaithfulTree(g: Graph, t: Tree)
    requires Wf(g)
    decreases t
  {
    t.name in g.classes && t.info == GetClassInfo(g, t.name)
    && |t.children| == |Children(g, t.name)|
    && forall i :: 0 <= i < |t.children| ==>
         t.children[i].name == Children(g, t.name)[i]
         && SubclassOf(g, t.name, t.children[i].name) && FaithfulTree(g, t.children[i])
  }

  /** The tree `build_tree` returns is the complete hierarchy below its
      class: every node carries its class's information and lists exactly
      its direct subclasses, in class order, at every depth. */
  lemma {:induction false} BuildTreeFaithful(g: Graph, name: string, rank: map<string, nat>)
    requires Wf(g) && Ranked(g, rank) && name in g.classes && name in rank
    ensures FaithfulTree(g, BuildTree(g, name, rank))
    decreases rank[name] + 1, 0
  {
    var kids := Children(g, name);
    forall c | c in kids ensures c in g.classes && SubclassOf(g, name, c) && c in rank && rank[c] < rank[name] {
    }
    BuildForestFaithful(g, kids, rank, rank[name]);
    var t := BuildTree(g, name, rank);
    forall i | 0 <= i < |t.children| ensures SubclassOf(g, name, t.children[i].name) {
      assert kids[i] in kids;
    }
  }

  /** Every tree of a forest is faithful. */
  lemma {:induction false} BuildForestFaithful(g: Graph, names: seq<string>, rank: map<string, nat>, bound: nat)
    requires Wf(g) && Ranked(g, rank)
    requires forall c :: c in names ==> c in g.classes && c in rank && rank[c] < bound
    ensures forall i :: 0 <= i < |names| ==> FaithfulTree(g, BuildForest(g, names, rank, bound)[i])
    decreases bound, 1, |names|
  {
    if names != [] {
      BuildTreeFaithful(g, names[0], rank);
      BuildForestFaithful(g, names[1..], rank, bound);
      var f := BuildForest(g, names, rank, bound);
      forall i | 0 < i < |names| ensures FaithfulTree(g, f[i]) {
        assert f[i] == BuildForest(g, names[1..], rank, bound)[i - 1];
      }
    }
  }
}
