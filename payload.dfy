/** The extraction payload the ontology merge consumes: one record per
    pydantic model, with the same optional fields and defaults. */
module Payload {
  import opened Wrappers

  /** `Literal[True, False, ""]` */
  datatype Existence = ExistsTrue | ExistsFalse | ExistsBlank

  /** `Literal['union', 'intersection', 'single']` */
  datatype ExprType = Union | Intersection | Single

  /** `Literal['only', 'some', ""]` */
  datatype RestrictionWord = OnlyWord | SomeWord | BlankWord

  datatype Entity = Entity(name: string, information: Option<string> := None)

  /** One subclass-superclass edge; the superclass is a single name. */
  datatype Hierarchy = Hierarchy(subclass: string := "", superclass: string := "",
                                 information: Option<string> := None)

  datatype Disjointness = Disjointness(class1: string := "", class2: string := "")

  /** `values` maps owner class names to values; the dictionary's items are
      kept in insertion order. */
  datatype DataProperty = DataProperty(name: string,
                                       values: Option<seq<(string, string)>> := None,
                                       information: Option<string> := None)

  /** The shape shared by `Domain` and `Range`. */
  datatype Endpoint = Endpoint(existence: Existence := ExistsFalse,
                               entity: Option<string> := None,
                               kind: Option<ExprType> := None)

  type Domain = Endpoint
  type Range = Endpoint

  /** The object property record the serializer prints. */
  datatype ObjectProperty = ObjectProperty(name: string,
                                           domain: Option<Domain> := None,
                                           range: Option<Range> := None,
                                           restriction: RestrictionWord := SomeWord,
                                           information: Option<string> := None)

  datatype Ontology = Ontology(entities: seq<Entity>,
                               objectProperties: seq<ObjectProperty>,
                               hierarchy: Option<seq<Hierarchy>> := None,
                               disjointness: Option<seq<Disjointness>> := None,
                               dataProperties: Option<seq<DataProperty>> := None)

  /** The record shapes the merge reads: an object property carries a list
      of domain/range/restriction instances. */
  datatype PropertyInstance = PropertyInstance(domain: Option<Domain> := None,
                                               range: Option<Range> := None,
                                               restriction: RestrictionWord := SomeWord)

  datatype ObjectPropertyItem = ObjectPropertyItem(name: string,
                                                   instances: Option<seq<PropertyInstance>> := None,
                                                   information: Option<string> := None)

  datatype OntologyElements = OntologyElements(entities: seq<Entity>,
                                               hierarchy: Option<seq<Hierarchy>> := None,
                                               disjointness: Option<seq<Disjointness>> := None)

  datatype OntologyProperties = OntologyProperties(objectProperties: seq<ObjectPropertyItem>,
                                                   dataProperties: Option<seq<DataProperty>> := None)

  /** Python truthiness of an optional string: present and non-empty. */
  predicate HasText(s: Option<string>) {
    s.Some? && s.value != ""
  }

  /** Python truthiness of an optional list: present and non-empty. */
  predicate NonEmpty<T>(xs: Option<seq<T>>) {
    xs.Some? && |xs.value| > 0
  }

  /** The declared defaults: a bare `Domain`/`Range` has existence False and
      no entity or type; a bare object property restricts with 'some'; the
      optional lists of an ontology and a hierarchy's names default to
      None and the empty string. */
  lemma Defaults(name: string, entities: seq<Entity>, properties: seq<ObjectProperty>)
    ensures Endpoint() == Endpoint(ExistsFalse, None, None)
    ensures ObjectProperty(name).restriction == SomeWord
    ensures ObjectProperty(name).domain.None? && ObjectProperty(name).range.None?
    ensures ObjectProperty(name).information.None?
    ensures Hierarchy() == Hierarchy("", "", None)
    ensures Disjointness() == Disjointness("", "")
    ensures DataProperty(name).values.None? && DataProperty(name).information.None?
    ensures Entity(name).information.None?
    ensures var o := Ontology(entities, properties);
            o.hierarchy.None? && o.disjointness.None? && o.dataProperties.None?
  {
  }
}
