/** `autology_constructor/idea/dreamer_team/meta_science_finder.py`: the
    required fields of the meta-science gap and research-idea answers. */
module MetaScienceFinder {
  import opened Wrappers
  import opened Values
  import opened FinderRecords

  const GapFields: seq<string> :=
    ["difference_type", "source_pattern", "target_pattern", "implications", "potential_synthesis", "confidence"]
  const IdeaFields: seq<string> :=
    ["gap_addressed", "research_question", "theoretical_framework", "practical_applications", "expected_impact"]

  /** `_parse_gaps` on the decoded answer (`None`: not valid JSON). */
  function ParseGaps(decoded: Option<Value>): Value {
    ParseRecords(GapFields, decoded)
  }

  /** `_parse_ideas` on the decoded answer (`None`: not valid JSON). */
  function ParseIdeas(decoded: Option<Value>): Value {
    ParseRecords(IdeaFields, decoded)
  }

  /** A list of gap objects comes back unchanged exactly when each holds
      all six fields, from the difference type to the confidence;
      otherwise the answer is dropped. */
  lemma GapsRequireFields(records: seq<Entries>)
    ensures ParseGaps(Some(RecordList(records)))
            == if HoldAll(GapFields, records) then RecordList(records) else List([])
  {
    RecordsAllOrNothing(GapFields, records);
  }

  /** A list of idea objects comes back unchanged exactly when each holds
      the addressed gap, research question, theoretical framework,
      practical applications and expected impact. */
  lemma IdeasRequireFields(records: seq<Entries>)
    ensures ParseIdeas(Some(RecordList(records)))
            == if HoldAll(IdeaFields, records) then RecordList(records) else List([])
  {
    RecordsAllOrNothing(IdeaFields, records);
  }
}
