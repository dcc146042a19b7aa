/** `src/agents/builder_team/class_extractor.py`: the stored class examples
    and the list logic of saving and deleting them. */
module ClassExtractor {
  import opened Wrappers
  import opened Removal
  import opened ExampleStore

  /** A class concept; pydantic compares all three fields. */
  datatype Class = Class(name: string, properties: map<string, string>, context: string)

  /** The duplicate test of `save_classes_to_json` and the equality used
      by `list.remove`: name, properties and context all equal. */
  predicate SameClass(a: Class, b: Class) {
    a.name == b.name && a.properties == b.properties && a.context == b.context
  }

  /** The records a name selects for deletion, honouring the truthy
      `properties` and `context` filters. */
  function ClassMatches(kw: Kwargs): (Class, string) -> bool {
    (c: Class, n: string) =>
      c.name == n
      && (Active(kw, "properties") ==> c.properties == kw.properties)
      && (Active(kw, "context") ==> c.context == kw.context)
  }

  function Stored(file: Option<seq<Class>>): seq<Class> {
    file.GetOr([])
  }

  /** `save_classes_to_json`: the list written back, or the error. */
  method SaveClasses(classes: seq<Class>, file: Option<seq<Class>>) returns (r: Result<seq<Class>, Failure>)
    ensures classes == [] <==> r == Err(EmptyList)
    ensures classes != [] ==> r == Ok(Stored(file) + Fresh(Stored(file), classes, SameClass))
  {
    if classes == [] {
      return Err(EmptyList);
    }
    var merged := MergeNew(Stored(file), classes, SameClass);
    return Ok(merged);
  }

  /** `delete_classes_from_json`: the list written back, or the error (in
      which case nothing is written). */
  method DeleteClasses(names: seq<string>, kw: Kwargs, file: Option<seq<Class>>)
    returns (r: Result<seq<Class>, Failure>)
    ensures names == [] ==> r == Err(EmptyList)
    ensures names != [] && file.None? ==> r == Err(MissingFile)
    ensures names != [] && file.Some? ==>
              r == DeleteFrom(file.value, file.value, names, ClassMatches(kw), false, SameClass)
  {
    if names == [] {
      return Err(EmptyList);
    }
    if file.None? {
      return Err(MissingFile);
    }
    r := DeleteNamed(file.value, names, ClassMatches(kw), false, SameClass);
  }

  lemma ClassEquality()
    ensures Reflexive(SameClass)
    ensures forall kw :: EqRespected(ClassMatches(kw), SameClass) && NameKeyed(ClassMatches(kw))
  {
  }

  /** Deleting distinct names removes exactly the stored classes that match
      one of them (and every one that does), keeping the order of the rest;
      if a name matches nothing the call fails on the first such name. */
  lemma DeleteClassesOutcome(stored: seq<Class>, names: seq<string>, kw: Kwargs)
    requires Distinct(names)
    ensures DeleteFrom(stored, stored, names, ClassMatches(kw), false, SameClass)
            == match FirstUnmatched(stored, names, ClassMatches(kw))
               case Some(n) => Err(NoMatch(n))
               case None => Ok(Reject(stored, AnyOf(ClassMatches(kw), names)))
  {
    ClassEquality();
    DeleteDistinct(stored, names, ClassMatches(kw), false, SameClass);
  }

  /** A name given twice fails once it has matched: the second removal
      finds the deleted classes gone. */
  lemma DeleteClassNameTwice(stored: seq<Class>, n: string, kw: Kwargs)
    requires Filter(stored, Named(ClassMatches(kw), n)) != []
    ensures DeleteFrom(stored, stored, [n, n], ClassMatches(kw), false, SameClass) == Err(NotInList)
  {
    ClassEquality();
    RepeatedNameFails(stored, n, ClassMatches(kw), false, SameClass);
  }

  /** Saving the same classes again writes the same list. */
  lemma SaveClassesTwice(stored: seq<Class>, classes: seq<Class>)
    ensures var once := stored + Fresh(stored, classes, SameClass);
            once + Fresh(once, classes, SameClass) == once
  {
    ClassEquality();
    SaveTwice(stored, classes, SameClass);
  }
}
