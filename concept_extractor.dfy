/** `src/agents/builder_team/concept_extractor.py`: the stored concept
    examples and the parser of the model's block-structured answer. */
module ConceptExtractor {
  import opened Wrappers
  import opened Removal
  import opened ExampleStore

  datatype Concept = Concept(name: string, isDataProperty: bool, information: string)

  datatype Example = Example(context: string, concepts: seq<Concept>)

  /** An element of the list handed to `save_examples_to_json`: an
      `Example`, or a value of any other type. */
  datatype Candidate = AnExample(example: Example) | NotAnExample

  /** The duplicate test of `save_examples_to_json`: equal contexts, concept
      lists of equal length, and the concepts equal position by position as
      dumped records. */
  predicate SameExample(a: Example, b: Example) {
    a.context == b.context && |a.concepts| == |b.concepts|
    && forall i :: 0 <= i < |a.concepts| ==> a.concepts[i] == b.concepts[i]
  }

  /** The field-by-field test is exactly equality of examples. */
  lemma SameExampleIsEquality(a: Example, b: Example)
    ensures SameExample(a, b) <==> a == b
  {
    if SameExample(a, b) {
      assert a.concepts == b.concepts;
    }
  }

  predicate AllExamples(items: seq<Candidate>) {
    forall i :: 0 <= i < |items| ==> items[i].AnExample?
  }

  function Examples(items: seq<Candidate>): (r: seq<Example>)
    requires AllExamples(items)
    ensures |r| == |items| && forall i :: 0 <= i < |items| ==> items[i] == AnExample(r[i])
  {
    seq(|items|, i requires 0 <= i < |items| => items[i].example)
  }

  /** `_load_examples_from_json`: the stored list, or no examples when the
      file is missing or empty (`None`). */
  function LoadExamples(file: Option<seq<Example>>): (r: seq<Example>)
    ensures file.None? ==> r == []
    ensures file.Some? ==> r == file.value
  {
    file.GetOr([])
  }

  /** `save_examples_to_json`: the list written back, or the error. */
  method SaveExamples(items: seq<Candidate>, file: Option<seq<Example>>) returns (r: Result<seq<Example>, Failure>)
    ensures items == [] <==> r == Err(EmptyList)
    ensures items != [] && !AllExamples(items) ==> r == Err(MixedTypes)
    ensures items != [] && AllExamples(items) ==>
              r == Ok(LoadExamples(file) + Fresh(LoadExamples(file), Examples(items), SameExample))
  {
    if items == [] {
      return Err(EmptyList);
    }
    if !AllExamples(items) {
      return Err(MixedTypes);
    }
    var merged := MergeNew(LoadExamples(file), Examples(items), SameExample);
    return Ok(merged);
  }

  /** A new example is written iff it is among the new ones and no stored
      example equals it. */
  lemma FreshExamples(stored: seq<Example>, incoming: seq<Example>, e: Example)
    ensures e in Fresh(stored, incoming, SameExample) <==> e in incoming && e !in stored
  {
    FreshMembers(stored, incoming, SameExample, e);
    if Duplicate(stored, e, SameExample) {
      var k :| 0 <= k < |stored| && SameExample(stored[k], e);
      SameExampleIsEquality(stored[k], e);
    }
    if e in stored {
      var k :| 0 <= k < |stored| && stored[k] == e;
      SameExampleIsEquality(stored[k], e);
    }
  }

  /** Saving the same examples again writes the same list. */
  lemma SaveExamplesTwice(stored: seq<Example>, incoming: seq<Example>)
    ensures var once := stored + Fresh(stored, incoming, SameExample);
            once + Fresh(once, incoming, SameExample) == once
  {
    forall e ensures SameExample(e, e) {
      SameExampleIsEquality(e, e);
    }
    SaveTwice(stored, incoming, SameExample);
  }
}
