/** `autology_constructor/idea/dreamer_team/knowledge_finder.py`: the
    required fields of the knowledge-gap and research-idea answers. */
module KnowledgeFinder {
  import opened Wrappers
  import opened Values
  import opened FinderRecords

  const GapFields: seq<string> := ["conflict_type", "elements", "chemical_basis", "impact", "confidence"]
  const IdeaFields: seq<string> :=
    ["gap_addressed", "research_question", "theoretical_basis", "experimental_approach", "expected_resolution"]

  /** `_parse_gaps` on the decoded answer (`None`: not valid JSON). */
  function ParseGaps(decoded: Option<Value>): Value {
    ParseRecords(GapFields, decoded)
  }

  /** `_parse_ideas` on the decoded answer (`None`: not valid JSON). */
  function ParseIdeas(decoded: Option<Value>): Value {
    ParseRecords(IdeaFields, decoded)
  }

  /** A list of gap objects comes back unchanged exactly when each holds
      the conflict type, elements, chemical basis, impact and confidence;
      otherwise the answer is dropped. */
  lemma GapsRequireFields(records: seq<Entries>)
    ensures ParseGaps(Some(RecordList(records)))
            == if HoldAll(GapFields, records) then RecordList(records) else List([])
  {
    RecordsAllOrNothing(GapFields, records);
  }

  /** A list of idea objects comes back unchanged exactly when each holds
      the addressed gap, research question, theoretical basis,
      experimental approach and expected resolution. */
  lemma IdeasRequireFields(records: seq<Entries>)
    ensures ParseIdeas(Some(RecordList(records)))
            == if HoldAll(IdeaFields, records) then RecordList(records) else List([])
  {
    RecordsAllOrNothing(IdeaFields, records);
  }
}
