# Chem-Ontology-Constructor, modelled in Dafny

This project models the core of Chem-Ontology-Constructor, a Python system
that builds a chemistry ontology from research text with language models and
then uses that ontology to propose research ideas. The model covers the
parts that decide what gets stored, merged, routed or returned:

- **The ontology merge** (`autonogy_constructor/ontology_merge.py` over the
  payload types of `autonogy_constructor/base_data_structures.py`). The
  persistent ontology is a class, `OntologyMerge.OntologyStore`, with one
  loop per payload list. Each loop is proved equal to a fold over a
  value-level store (`MergeModel`). Lemmas show that the merge keeps the
  store well formed and loses nothing already recorded. They also show that
  the entity, hierarchy and data-value phases are idempotent and the
  disjointness phase is not.
- **The builder team's example stores** (`class_extractor.py`,
  `individual_extractor.py`, `concept_extractor.py`). These cover saving with
  each record kind's duplicate test, deleting by name with keyword filters,
  and attaching individuals to their categories on load. `ExampleStore`
  holds the shared list logic. The parser of the model's block-structured
  answer is `ConceptParser`.
- **The query team's ontology tools** (`query_team/ontology_tools.py`) and
  **formatting helpers** (`query_team/utils.py`). The tools cover class
  information, related and disjoint classes, the property-path search and
  the hierarchy tree. The helpers cover JSON parsing, SPARQL result rows,
  variable extraction and text formatting. The ontology is a value.
- **The ontology text dump** (`autonogy_constructor/utils.py`).
- **The configuration references** of `config/settings.py`. These are
  `{{key}}` references within one level of the configuration and the
  `${VAR}` prefix of `!path` scalars.
- **The idea workflow's state machine**: the `StateManager` class of
  `state_manager.py`; the ontology selection, router and result handlers of
  `workflow.py`; the information check, routing and finder selection of
  `dreamer_workflow.py`; and the all-or-nothing record check of the
  knowledge and meta-science finders.

Python values that the source handles dynamically (state dicts, decoded
JSON) are modelled by `Values.Value`. A dict is an ordered list of entries
with distinct keys. `Values.PyError` names the Python exception an operation
raises.

## Model

| member | source | states |
|---|---|---|
| MergeModel.EntityStepWf | autonogy_constructor/ontology_merge.py:57-69 | one entity keeps the store well formed and loses nothing recorded; its class exists afterwards and its non-empty information is on the class |
| MergeModel.EntityCreatedWf | autonogy_constructor/ontology_merge.py:59-63 | a new class is created, keeping the invariant; its information list is exactly its non-empty information, or empty |
| MergeModel.EntityExistingWf | autonogy_constructor/ontology_merge.py:64-67 | an existing class gets new non-empty information appended once, keeping the invariant |
| MergeModel.EntitiesPhaseWf | autonogy_constructor/ontology_merge.py:54-69 | the entity phase keeps the invariant, loses nothing recorded and adds exactly the entities' names as classes |
| MergeModel.EntitiesPhaseRecords | autonogy_constructor/ontology_merge.py:54-69 | after the phase every entity exists and every non-empty information text is recorded on its class |
| MergeModel.EntitiesPhaseStable | autonogy_constructor/ontology_merge.py:59-67 | entities already present with their information recorded change nothing |
| MergeModel.EntitiesPhaseIdempotent | autonogy_constructor/ontology_merge.py:54-69 | merging the same entities twice gives the store of merging them once |
| MergeModel.HierarchyStepUnchanged | autonogy_constructor/ontology_merge.py:76-87 | a missing subclass or superclass, or a parent already in `is_a`, leaves the store as it is, information included |
| MergeModel.HierarchyStepAdds | autonogy_constructor/ontology_merge.py:76-82 | a new edge appends exactly the superclass to the subclass's `is_a`, appends its information to the subclass's hierarchy information exactly when it is non-empty and not recorded yet, and changes no other class's parents or information |
| MergeModel.HierarchyEdgeAddedWf | autonogy_constructor/ontology_merge.py:77-82 | appending a new edge and its information keeps the store well formed |
| MergeModel.HierarchyStepWf | autonogy_constructor/ontology_merge.py:74-89 | one edge keeps the invariant (no named parent twice), loses nothing and creates no class |
| MergeModel.HierarchyPhaseWf | autonogy_constructor/ontology_merge.py:71-89 | the hierarchy phase keeps the invariant, loses nothing and creates no class |
| MergeModel.HierarchyStepRecords | autonogy_constructor/ontology_merge.py:76-80 | one more edge keeps the edges already present and records itself when both ends exist |
| MergeModel.HierarchyPhaseRecords | autonogy_constructor/ontology_merge.py:71-89 | after the phase every edge between existing classes is in the subclass's `is_a` |
| MergeModel.HierarchyPhaseStable | autonogy_constructor/ontology_merge.py:76-80 | edges already recorded change nothing |
| MergeModel.HierarchyPhaseIdempotent | autonogy_constructor/ontology_merge.py:71-89 | merging the same edges twice gives the store of merging them once |
| MergeModel.DisjointnessPhaseAppends | autonogy_constructor/ontology_merge.py:91-102 | the phase appends exactly one `AllDisjoint` axiom per pair of existing classes, in input order, and touches nothing else |
| MergeModel.ValidPairsExist | autonogy_constructor/ontology_merge.py:96 | every recorded pair names two existing classes |
| MergeModel.DisjointnessPhaseWf | autonogy_constructor/ontology_merge.py:91-102 | the disjointness phase keeps the invariant, loses nothing and creates no class |
| MergeModel.DisjointTwice | autonogy_constructor/ontology_merge.py:96-100 | not idempotent: the same pair merged twice records two axioms |
| MergeModel.DeclareDataPropertyWf | autonogy_constructor/ontology_merge.py:110-118 | a data property is created, or gets new information appended once; the property exists afterwards with its information |
| MergeModel.ValueStepWf | autonogy_constructor/ontology_merge.py:121-133 | a value for an existing owner joins the owner's list once; classes and properties are unchanged |
| MergeModel.ValuesPhaseWf | autonogy_constructor/ontology_merge.py:120-135 | the owner/value loop keeps the invariant and changes no class or property declaration |
| MergeModel.DataPropertiesPhaseWf | autonogy_constructor/ontology_merge.py:104-137 | the data-property phase keeps the invariant, loses nothing and creates no class |
| MergeModel.ValuesPhaseRecords | autonogy_constructor/ontology_merge.py:121-133 | after the loop every value of an existing owner is in the owner's list |
| MergeModel.ValuesPhaseStable | autonogy_constructor/ontology_merge.py:131 | values already recorded change nothing |
| MergeModel.ValuesPhaseIdempotent | autonogy_constructor/ontology_merge.py:120-135 | applying the same owner/value items twice gives the store of applying them once |
| MergeModel.NamesOf | autonogy_constructor/ontology_merge.py:162 | each name of the comma-separated entity text holds no comma and has no white space left at either end |
| MergeModel.DeclareObjectPropertyWf | autonogy_constructor/ontology_merge.py:146-154 | the property exists afterwards and holds its non-empty information; a new property holds exactly that information, an existing one keeps its list and gains at most that one entry; the invariant holds and no class is created |
| MergeModel.AttachWf | autonogy_constructor/ontology_merge.py:183-195 | attaching a restriction to a single domain's `is_a` or to a general class axiom keeps the invariant |
| MergeModel.InstanceStepWf | autonogy_constructor/ontology_merge.py:158-197 | one domain/range instance keeps the invariant and the remembered range expression valid, and creates no class |
| MergeModel.InstancesPhaseWf | autonogy_constructor/ontology_merge.py:157-197 | the instance loop keeps the invariant and creates no class |
| MergeModel.ObjectPropertyStepWf | autonogy_constructor/ontology_merge.py:144-200 | one object property keeps the invariant and creates no class |
| MergeModel.ObjectPropertiesFromWf | autonogy_constructor/ontology_merge.py:139-200 | the object-property loop keeps the invariant and creates no class |
| MergeModel.InstanceNeedsGuards | autonogy_constructor/ontology_merge.py:160-163 | an instance attaches nothing unless both entity texts are non-empty and every trimmed range and domain name exists |
| MergeModel.SingleRangeArity | autonogy_constructor/ontology_merge.py:164-167 | a 'single' range that does not split into exactly one name raises and abandons the instance, leaving store and remembered range unchanged |
| MergeModel.InstancesPhaseAppend | autonogy_constructor/ontology_merge.py:158 | the instance loop over `xs + ys` is the loop over `ys` started where the loop over `xs` ended |
| MergeModel.AbandonedInstanceSkipped | autonogy_constructor/ontology_merge.py:159-167 | an abandoned instance affects nothing after it |
| MergeModel.InstanceAttaches | autonogy_constructor/ontology_merge.py:164-195 | a passing instance quantifies universally exactly for 'only'; a single existing domain gets the restriction at the end of its `is_a`; 'union' yields a union axiom and any other type an intersection axiom |
| MergeModel.UntypedRangeFirst | autonogy_constructor/ontology_merge.py:164-176 | a range without a type, met before any range expression in the call, abandons the instance (the unbound local) |
| MergeModel.UntypedRangeKept | autonogy_constructor/ontology_merge.py:164-176 | a range without a type reuses the previous instance's range expression |
| MergeModel.HierarchyIfAnyWf | autonogy_constructor/ontology_merge.py:27-28 | the optional hierarchy phase keeps the invariant and everything recorded before the merge |
| MergeModel.DisjointnessIfAnyWf | autonogy_constructor/ontology_merge.py:31-32 | the optional disjointness phase keeps the invariant and everything recorded before the merge |
| MergeModel.DataPropertiesIfAnyWf | autonogy_constructor/ontology_merge.py:35-36 | the optional data-property phase keeps the invariant and everything recorded before the merge |
| MergeModel.ObjectPropertiesPhaseWf | autonogy_constructor/ontology_merge.py:39 | the object-property phase keeps the invariant and everything recorded before the merge |
| MergeModel.MergeWf | autonogy_constructor/ontology_merge.py:9-45 | the whole merge keeps the invariant, loses nothing recorded, and adds exactly the payload's entity names as classes |
| OntologyMerge.OntologyStore.constructor | autonogy_constructor/ontology_merge.py:19 | the store starts as the given ontology |
| OntologyMerge.OntologyStore.MergeEntities | autonogy_constructor/ontology_merge.py:54-69 | the in-place loop leaves exactly the state of the entity phase |
| OntologyMerge.OntologyStore.MergeHierarchy | autonogy_constructor/ontology_merge.py:71-89 | the in-place loop leaves exactly the state of the hierarchy phase |
| OntologyMerge.OntologyStore.MergeDisjointness | autonogy_constructor/ontology_merge.py:91-102 | the in-place loop leaves exactly the state of the disjointness phase |
| OntologyMerge.OntologyStore.MergeValues | autonogy_constructor/ontology_merge.py:120-135 | the owner/value loop leaves exactly the state of the values phase |
| OntologyMerge.OntologyStore.MergeDataProperties | autonogy_constructor/ontology_merge.py:104-137 | the in-place loop leaves exactly the state of the data-property phase |
| OntologyMerge.OntologyStore.MergeInstances | autonogy_constructor/ontology_merge.py:157-197 | the instance loop leaves exactly the state and remembered range expression of the instance phase |
| OntologyMerge.OntologyStore.MergeObjectProperties | autonogy_constructor/ontology_merge.py:139-200 | the in-place loop leaves exactly the state of the object-property phase |
| OntologyMerge.OntologyStore.MergeOntology | autonogy_constructor/ontology_merge.py:9-45 | the state after `merge_ontology` is the merge of the old state; a well-formed store stays well formed and loses nothing |
| Payload.Defaults | autonogy_constructor/base_data_structures.py:7-120 | the declared defaults: bare domain/range not existing, restriction 'some', optional lists and texts absent, empty hierarchy and disjointness names |
| ExampleStore.MergeNew | src/agents/builder_team/class_extractor.py:59-71 | the duplicate-flag loop returns the stored list unchanged followed by the new records that duplicate no stored one, in input order |
| ExampleStore.FreshMembers | src/agents/builder_team/class_extractor.py:61-71 | a new record is kept exactly when it duplicates no stored record |
| ExampleStore.SaveTwice | src/agents/builder_team/class_extractor.py:59-71 | saving the same records again leaves the list as the first save wrote it |
| ExampleStore.NothingStored | src/agents/builder_team/class_extractor.py:60-71 | with nothing stored every new record is kept, repeats included (new records are not compared with each other) |
| ExampleStore.Take1 | src/agents/builder_team/individual_extractor.py:225-229 | exactly the first hit, and none exactly when there are none |
| ExampleStore.RoundFailures | src/agents/builder_team/class_extractor.py:139-144 | a name selecting nothing ends the call with `No matching class found: name`, and a selected record no longer remaining ends it with the `remove` ValueError |
| ExampleStore.SelectHits | src/agents/builder_team/individual_extractor.py:221-245 | the selection loop returns the stored records a name selects, only the first when the loop breaks at a hit |
| ExampleStore.RemoveAll | src/agents/builder_team/class_extractor.py:140-141 | `remaining.remove(x)` for each hit, or the ValueError when nothing equal is left |
| ExampleStore.DeleteNamed | src/agents/builder_team/class_extractor.py:114-144 | the deletion loop's outcome is the specification fold over the names |
| ExampleStore.FirstUnmatched | src/agents/builder_team/class_extractor.py:143-144 | the first name that selects nothing, and none exactly when every name selects something |
| ExampleStore.DeleteOneName | src/agents/builder_team/class_extractor.py:118-141 | with distinct names, one name removes exactly the records it selects from what remains |
| ExampleStore.DeleteDistinctFrom | src/agents/builder_team/class_extractor.py:118-144 | the remaining names either remove exactly their selected records or fail on the first unmatched name |
| ExampleStore.DeleteDistinct | src/agents/builder_team/class_extractor.py:114-149 | distinct names: success exactly when every name selects something, removing exactly the selected records and keeping the order of the rest; otherwise failure on the first unmatched name |
| ExampleStore.RepeatedNameFails | src/agents/builder_team/class_extractor.py:118-141 | a name given twice fails once it has matched: the second removal finds nothing equal left |
| ClassExtractor.SaveClasses | src/agents/builder_team/class_extractor.py:36-76 | an empty list is refused; otherwise the file is written with the stored classes followed by the new non-duplicate ones |
| ClassExtractor.DeleteClasses | src/agents/builder_team/class_extractor.py:88-149 | an empty name list and a missing or empty file are refused; otherwise the outcome is the name-by-name deletion with the `properties` and `context` filters |
| ClassExtractor.ClassEquality | src/agents/builder_team/class_extractor.py:64-66 | the duplicate test is reflexive, respected by the delete filters, and a class is selected by its own name only |
| ClassExtractor.DeleteClassesOutcome | src/agents/builder_team/class_extractor.py:88-149 | distinct names remove exactly the stored classes matching one of them, or fail on the first that matches nothing |
| ClassExtractor.DeleteClassNameTwice | src/agents/builder_team/class_extractor.py:118-141 | a matched name given twice raises the `list.remove` ValueError |
| ClassExtractor.SaveClassesTwice | src/agents/builder_team/class_extractor.py:59-71 | saving the same classes again writes the same list |
| ConceptExtractor.SameExampleIsEquality | src/agents/builder_team/concept_extractor.py:70-73 | the duplicate test (context, length and concept-by-concept dump) is exactly equality of examples |
| ConceptExtractor.Examples | src/agents/builder_team/concept_extractor.py:51-52 | the candidates, all examples, as examples in order |
| ConceptExtractor.LoadExamples | src/agents/builder_team/concept_extractor.py:86-97 | a missing or empty file loads as no examples, otherwise the stored list |
| ConceptExtractor.SaveExamples | src/agents/builder_team/concept_extractor.py:46-84 | an empty list is a ValueError, a non-example a TypeError; otherwise the stored examples followed by the new non-duplicate ones |
| ConceptExtractor.FreshExamples | src/agents/builder_team/concept_extractor.py:64-78 | a new example is written exactly when no stored example equals it |
| ConceptExtractor.SaveExamplesTwice | src/agents/builder_team/concept_extractor.py:64-78 | saving the same examples again writes the same list |
| ConceptParser.Piece | src/agents/builder_team/concept_extractor.py:169 | one piece contributes at most one block |
| ConceptParser.NonBlank | src/agents/builder_team/concept_extractor.py:169 | the comprehension keeps at most as many blocks as pieces |
| ConceptParser.SplitOnceJoin | src/agents/builder_team/concept_extractor.py:176 | `line.split(':', 1)` gives two halves that rebuild the line around the first colon |
| ConceptParser.Entry | src/agents/builder_team/concept_extractor.py:175-177 | a line contributes a key/value exactly when it holds a colon |
| ConceptParser.PropertiesStep | src/agents/builder_team/concept_extractor.py:174-177 | reading one more line updates the dict by that line |
| ConceptParser.GatherStep | src/agents/builder_team/concept_extractor.py:171-196 | one more block appends its output |
| ConceptParser.GatherAppend | src/agents/builder_team/concept_extractor.py:171-196 | the output of consecutive parts of the answer is concatenated |
| ConceptParser.RoutedStep | src/agents/builder_team/concept_extractor.py:185-196 | one block appends its class or individual to the matching list |
| ConceptParser.ReadProperties | src/agents/builder_team/concept_extractor.py:173-177 | the inner loop builds exactly the block's `properties` dict |
| ConceptParser.ParseLlmOutput | src/agents/builder_team/concept_extractor.py:164-198 | the class and individual lists are the routed blocks, each in block order |
| ConceptParser.PieceClean | src/agents/builder_team/concept_extractor.py:169 | a kept piece is non-empty and stripped |
| ConceptParser.NonBlankClean | src/agents/builder_team/concept_extractor.py:169 | every block is non-empty with no white space at either end |
| ConceptParser.BlocksClean | src/agents/builder_team/concept_extractor.py:169 | every block of the answer is non-empty and stripped |
| ConceptParser.SingleBlock | src/agents/builder_team/concept_extractor.py:169 | an answer without a blank line is one block unless it is all white space |
| ConceptParser.BeforeNoColon | src/agents/builder_team/concept_extractor.py:176 | the text before the first colon holds no colon |
| ConceptParser.KeyShape | src/agents/builder_team/concept_extractor.py:177 | a key is lowercase and holds no colon |
| ConceptParser.ValueShape | src/agents/builder_team/concept_extractor.py:177 | a value has no white space at either end |
| ConceptParser.PropertyKeys | src/agents/builder_team/concept_extractor.py:174-177 | a key is recorded exactly when some line carries it |
| ConceptParser.ReadOther | src/agents/builder_team/concept_extractor.py:177 | a line with another key, or none, keeps what a key holds |
| ConceptParser.ReadSame | src/agents/builder_team/concept_extractor.py:177 | a line with a key sets it |
| ConceptParser.LastKeyWins | src/agents/builder_team/concept_extractor.py:174-177 | the value kept for a key is the one on the last line carrying it |
| ConceptParser.KeptFrom | src/agents/builder_team/concept_extractor.py:174-177 | a value read for a key survives every later line that does not set that key |
| ConceptParser.RoutedAppend | src/agents/builder_team/concept_extractor.py:171-196 | the outputs follow block order |
| ConceptParser.RoutedCount | src/agents/builder_team/concept_extractor.py:185-196 | the two outputs together hold one entry per block classified 'class' or 'individual' |
| ConceptParser.ClassificationIgnoresCase | src/agents/builder_team/concept_extractor.py:181-190 | for every block and every spelling of the classification, the block routes as with the lowercased spelling, and it is a class (an individual) exactly when that is `class` (`individual`) |
| IndividualExtractor.CategoryEquality | src/agents/builder_team/individual_extractor.py:41-52 | category equality is by name only: an equivalence that ignores description and examples |
| IndividualExtractor.SaveInstances | src/agents/builder_team/individual_extractor.py:71-131 | an empty list is a ValueError and a mixed list a TypeError; categories are deduplicated by name, individuals by all four fields, into their own file |
| IndividualExtractor.MixedListRefused | src/agents/builder_team/individual_extractor.py:90-97 | a list of both kinds, or of neither, is neither all categories nor all individuals |
| IndividualExtractor.Linked | src/agents/builder_team/individual_extractor.py:159-166 | each category with the individuals whose first equal category it is appended, in input order |
| IndividualExtractor.Associate | src/agents/builder_team/individual_extractor.py:159-168 | the association loop links every individual to its first same-named category and returns those without one |
| IndividualExtractor.AttachIndividual | src/agents/builder_team/individual_extractor.py:161-166 | the inner loop appends the individual to the first same-named category, reporting whether there was one |
| IndividualExtractor.LinkedNothing | src/agents/builder_team/individual_extractor.py:157 | with no individuals the categories are as loaded |
| IndividualExtractor.HomeSearch | src/agents/builder_team/individual_extractor.py:162-166 | the search stops at the first same-named category |
| IndividualExtractor.AssociateStep | src/agents/builder_team/individual_extractor.py:160-168 | one individual is linked or warned about |
| IndividualExtractor.LinkedStep | src/agents/builder_team/individual_extractor.py:163-164 | one individual's effect on the categories |
| IndividualExtractor.LoadInstances | src/agents/builder_team/individual_extractor.py:133-170 | a missing file fails; otherwise the individuals as stored, the stored categories each holding the individuals whose first equally named category it is (Linked), and a warning per individual without a category |
| IndividualExtractor.HomeOrWarning | src/agents/builder_team/individual_extractor.py:160-168 | an individual is warned about exactly when no category has its category's name |
| IndividualExtractor.DeleteInstances | src/agents/builder_team/individual_extractor.py:172-257 | the refusals (empty names, filters with categories, unknown kind, missing file); categories lose the first entry of each name, individuals every filtered match |
| IndividualExtractor.DeleteCategoriesOutcome | src/agents/builder_team/individual_extractor.py:217-252 | with unique stored names and distinct requested names, exactly the named categories are removed, or the call fails on the first name not stored |
| IndividualExtractor.DeleteFirstCategoryOnly | src/agents/builder_team/individual_extractor.py:221-229 | with several categories of one name, only the first is removed |
| IndividualExtractor.FirstCategoryAt | src/agents/builder_team/individual_extractor.py:226 | `list.remove` finds the first category of the name |
| IndividualExtractor.DeleteIndividualsOutcome | src/agents/builder_team/individual_extractor.py:217-252 | distinct names remove exactly the stored individuals that match one of them under the filters, or fail on the first that matches nothing |
| IndividualExtractor.DeleteIndividualNameTwice | src/agents/builder_team/individual_extractor.py:243-249 | a matched name given twice raises the `list.remove` ValueError |
| IndividualExtractor.SaveCategoriesTwice | src/agents/builder_team/individual_extractor.py:106-126 | saving the same categories again writes the same list |
| OntologyTools.GetClassInfo | autonogy_constructor/idea/query_team/ontology_tools.py:22-29 | the class's name, and its information and source lists, each empty when the class lacks the attribute |
| OntologyTools.InformationBySource | autonogy_constructor/idea/query_team/ontology_tools.py:36-41 | the contents of exactly the records from the source, in their order with repeats kept (filter, then take contents); nothing for an unknown class or one without `has_information`; a content is returned exactly when such a record carries it |
| OntologyTools.ContentsFromFiltered | autonogy_constructor/idea/query_team/ontology_tools.py:41 | the comprehension equals filtering the records by source and then taking their contents, in order |
| OntologyTools.ContentsFromAppend | autonogy_constructor/idea/query_team/ontology_tools.py:41 | the records of two lists give the first list's contents followed by the second's |
| OntologyTools.ContentsFromOne | autonogy_constructor/idea/query_team/ontology_tools.py:41 | one record gives its content exactly when it is from the source |
| OntologyTools.ContentsFrom | autonogy_constructor/idea/query_team/ontology_tools.py:41 | the comprehension keeps at most one content per information record |
| OntologyTools.ContentsFromMembers | autonogy_constructor/idea/query_team/ontology_tools.py:36-41 | a content is returned exactly when some record from the requested source carries it |
| OntologyTools.ContentsFromAll | autonogy_constructor/idea/query_team/ontology_tools.py:41 | when every record is from the source, every record contributes one entry |
| OntologyTools.RestrictionPropertiesStep | autonogy_constructor/idea/query_team/ontology_tools.py:53-55 | one more `is_a` entry adds its property exactly when it is a restriction |
| OntologyTools.ClassProperties | autonogy_constructor/idea/query_team/ontology_tools.py:47-61 | the result is sorted without repeats and holds exactly the restriction properties and the declared properties |
| OntologyTools.ClassNames | autonogy_constructor/idea/query_team/ontology_tools.py:134 | the class elements of a collection, in order, at most one per element |
| OntologyTools.RelationsStep | autonogy_constructor/idea/query_team/ontology_tools.py:126-145 | one more object property adds its entry exactly when it relates some class |
| OntologyTools.RestrictionRelatedStep | autonogy_constructor/idea/query_team/ontology_tools.py:129-134 | one more `is_a` entry adds the classes of a restriction on the property |
| OntologyTools.ClassNamesStep | autonogy_constructor/idea/query_team/ontology_tools.py:134 | one more element adds its name exactly when it is a class |
| OntologyTools.ExtendWithClasses | autonogy_constructor/idea/query_team/ontology_tools.py:134 | `related.extend(...)` appends the class elements, in order |
| OntologyTools.RestrictionRelatedOf | autonogy_constructor/idea/query_team/ontology_tools.py:129-134 | the restriction loop collects exactly the fillers of restrictions on the property, in `is_a` order |
| OntologyTools.RelatedOf | autonogy_constructor/idea/query_team/ontology_tools.py:127-142 | one property's `related` list: restriction fillers, then the property's direct value |
| OntologyTools.RelatedClasses | autonogy_constructor/idea/query_team/ontology_tools.py:120-147 | the method returns the specification's relations for the class |
| OntologyTools.RelationsShape | autonogy_constructor/idea/query_team/ontology_tools.py:144-145 | a property is listed exactly when some class is related through it, and its list is sorted, without repeats, and holds exactly those classes |
| OntologyTools.RelationsSound | autonogy_constructor/idea/query_team/ontology_tools.py:144-145 | every listed property relates some class, and its list is sorted, without repeats, and holds exactly those classes |
| OntologyTools.RelationsComplete | autonogy_constructor/idea/query_team/ontology_tools.py:144-145 | every property through which some class is related is listed |
| OntologyTools.DisjointListStep | autonogy_constructor/idea/query_team/ontology_tools.py:201-202 | one more axiom adds its class members |
| OntologyTools.AddClassNames | autonogy_constructor/idea/query_team/ontology_tools.py:202 | the set update adds exactly the class members, keeping the set sorted |
| OntologyTools.DisjointClasses | autonogy_constructor/idea/query_team/ontology_tools.py:196-205 | the result is sorted without repeats, holds exactly the classes declared disjoint, and never the queried class |
| OntologyTools.RelatedIn | autonogy_constructor/idea/query_team/ontology_tools.py:164-165 | in a closed ontology every class a relation lists is a class of the ontology |
| OntologyTools.PathSearch.constructor | autonogy_constructor/idea/query_team/ontology_tools.py:151-152 | the search starts with no paths and nothing visited |
| OntologyTools.PathSearch.Dfs | autonogy_constructor/idea/query_team/ontology_tools.py:154-168 | `dfs` appends exactly the paths the specification finds and restores `visited` |
| OntologyTools.PathSearch.ExploreRelations | autonogy_constructor/idea/query_team/ontology_tools.py:164-167 | the outer loop appends the specification's paths over the related-classes entries, restoring `visited` |
| OntologyTools.PathSearch.ExploreRelated | autonogy_constructor/idea/query_team/ontology_tools.py:165-167 | the inner loop searches on from each unvisited related class, restoring `visited` |
| OntologyTools.ExplorePropertiesStep | autonogy_constructor/idea/query_team/ontology_tools.py:164 | one more related-classes entry appends its classes' paths |
| OntologyTools.ExploreClassesStep | autonogy_constructor/idea/query_team/ontology_tools.py:165-167 | one more related class appends its paths when it is not visited |
| OntologyTools.PropertyPath | autonogy_constructor/idea/query_team/ontology_tools.py:149-171 | `get_property_path`, with `max_depth` defaulting to 5, returns the paths the specification search records from the start class |
| OntologyTools.SameEnds | autonogy_constructor/idea/query_team/ontology_tools.py:157-159 | from a class to itself the result is exactly one empty path (nothing when `max_depth` is negative) |
| OntologyTools.RelatedEntry | autonogy_constructor/idea/query_team/ontology_tools.py:144-145 | each listed class is related through its entry's property |
| OntologyTools.ExploreSound | autonogy_constructor/idea/query_team/ontology_tools.py:154-168 | every recorded path extends the current path by a simple walk to the target that avoids the visited classes and fits the depth left |
| OntologyTools.ExplorePropertiesSound | autonogy_constructor/idea/query_team/ontology_tools.py:164-167 | every path from the outer loop starts with a property relating the current class to a class from which a simple walk continues |
| OntologyTools.ExploreClassesSound | autonogy_constructor/idea/query_team/ontology_tools.py:165-167 | every path from the inner loop starts with the entry's property and continues by a simple walk |
| OntologyTools.PropertyPathSound | autonogy_constructor/idea/query_team/ontology_tools.py:149-171 | every returned path is a walk of at most `max_depth` properties from start to end that passes no class twice |
| OntologyTools.NamedParents | autonogy_constructor/idea/query_team/ontology_tools.py:99 | the named classes among the `is_a` entries, at most one per entry |
| OntologyTools.NamedParentsMembers | autonogy_constructor/idea/query_team/ontology_tools.py:96-99 | a name is a parent exactly when the class's `is_a` holds it as a named class |
| OntologyTools.Parents | autonogy_constructor/idea/query_team/ontology_tools.py:96-99 | a name is a parent exactly when the class's `is_a` holds it as a named class |
| OntologyTools.Children | autonogy_constructor/idea/query_team/ontology_tools.py:101-104 | the classes that list the queried class among their parents, filtered from the class listing in its order; a class is a child exactly when it lists the queried class as a parent |
| OntologyTools.TopClasses | autonogy_constructor/idea/query_team/ontology_tools.py:288-290 | without a root, the hierarchy starts from the classes without a named parent, filtered from the class listing in its order; a class is listed exactly when it has no named parent |
| OntologyTools.BuildTree | autonogy_constructor/idea/query_team/ontology_tools.py:278-283 | a node names its class, carries its class info, and has one child per direct subclass, named in class order |
| OntologyTools.ParseHierarchy | autonogy_constructor/idea/query_team/ontology_tools.py:276-291 | a non-empty root gives its complete tree; otherwise one complete tree per top class, in class order (a complete tree lists, at every node, the class info and exactly the direct subclasses in class order) |
| OntologyTools.BuildForest | autonogy_constructor/idea/query_team/ontology_tools.py:282 | one tree per name, named in order |
| OntologyTools.Bound | autonogy_constructor/idea/query_team/ontology_tools.py:291 | a rank bound above every top class, so `build_tree` on them terminates |
| OntologyTools.BuildTreeFaithful | autonogy_constructor/idea/query_team/ontology_tools.py:278-283 | a built tree is the complete hierarchy below its class: every node carries its class info and has exactly one child per direct subclass, in class order, at every depth |
| OntologyTools.BuildForestFaithful | autonogy_constructor/idea/query_team/ontology_tools.py:282 | every tree built for a list of classes is the complete hierarchy below its class |
| QueryUtils.ParseJson | autonogy_constructor/idea/query_team/utils.py:19-23 | the decoded value when the text is valid JSON, the empty list after a decode error |
| QueryUtils.FormatValue | autonogy_constructor/idea/query_team/utils.py:25-46 | an ontology entity becomes its name; lists and sets keep their length, dicts their keys; anything else becomes its `str` |
| QueryUtils.FormatValueElements | autonogy_constructor/idea/query_team/utils.py:41-44 | list, set and dict elements are formatted one by one, in order |
| QueryUtils.FormatValueFormatted | autonogy_constructor/idea/query_team/utils.py:25-46 | the result is only strings, lists and dicts of them |
| QueryUtils.FormatValueFixes | autonogy_constructor/idea/query_team/utils.py:39-46 | a value that is already formatted is returned unchanged |
| QueryUtils.FormatValueIdempotent | autonogy_constructor/idea/query_team/utils.py:25-46 | formatting twice gives the result of formatting once |
| QueryUtils.VarKeyInjective | autonogy_constructor/idea/query_team/utils.py:68 | different positions get different `var{i}` keys |
| QueryUtils.TupleRow | autonogy_constructor/idea/query_team/utils.py:66-68 | one entry per tuple element |
| QueryUtils.TupleItem | autonogy_constructor/idea/query_team/utils.py:66-68 | the `enumerate` loop builds the tuple's row |
| QueryUtils.FormatSparqlResults | autonogy_constructor/idea/query_team/utils.py:48-73 | the result is `{"results": rows}` with one row per result, in order |
| QueryUtils.SparqlRowShape | autonogy_constructor/idea/query_team/utils.py:64-71 | a tuple row has exactly the keys `var0` to `var{n-1}`, each once and holding its formatted element; any other result has the single key `result` |
| QueryUtils.UniqueLookup | autonogy_constructor/idea/query_team/utils.py:68 | in a dict with unique keys, each entry's key looks up its value |
| QueryUtils.WordPrefix | autonogy_constructor/idea/query_team/utils.py:90 | the longest prefix of word characters, which `\w+` matches |
| QueryUtils.Dedup | autonogy_constructor/idea/query_team/utils.py:91 | `dict.fromkeys` keeps each name once, loses none, and keeps the names in the order of their first occurrence |
| QueryUtils.ExtractVariables | autonogy_constructor/idea/query_team/utils.py:89-91 | the matched variable names, each once, none lost, in the order of their first match |
| QueryUtils.FindVariablesSound | autonogy_constructor/idea/query_team/utils.py:90 | every match is a `?` followed by a maximal run of word characters in the query |
| QueryUtils.FindVariablesComplete | autonogy_constructor/idea/query_team/utils.py:90 | every `?` that starts a match contributes its name |
| QueryUtils.ExtractVariablesExact | autonogy_constructor/idea/query_team/utils.py:75-91 | a name is returned exactly when the query holds `?name` with the name a maximal run of word characters |
| QueryUtils.SkipPlain | autonogy_constructor/idea/query_team/utils.py:90 | text without `?` contributes no match |
| QueryUtils.TakeVariable | autonogy_constructor/idea/query_team/utils.py:90 | a `?` followed by a word and a non-word character contributes exactly that word |
| QueryUtils.WordPrefixOf | autonogy_constructor/idea/query_team/utils.py:90 | a word followed by a non-word character is matched whole |
| QueryUtils.PlainThenVariable | autonogy_constructor/idea/query_team/utils.py:90 | plain text then a variable contributes just that variable |
| QueryUtils.TwoVariablesTwice | autonogy_constructor/idea/query_team/utils.py:90 | a query naming two variables twice each, in alternation, matches them in that order |
| QueryUtils.DocumentedExample | autonogy_constructor/idea/query_team/utils.py:84-87 | `SELECT ?x ?y WHERE { ?x rdf:type ?y }` gives `['x', 'y']` |
| QueryUtils.RepeatedPairDedup | autonogy_constructor/idea/query_team/utils.py:91 | a repeated pair of distinct names keeps the first of each |
| QueryUtils.RowLines | autonogy_constructor/idea/query_team/utils.py:100-106 | with variable names, one line per name; without them, one line per key of the row |
| QueryUtils.Blocks | autonogy_constructor/idea/query_team/utils.py:99-107 | one text block per result row |
| QueryUtils.FormatQueryResults | autonogy_constructor/idea/query_team/utils.py:93-109 | `No results found` for a falsy argument or one without `results`; `TypeError` where `in`, `results['results']` or iteration is unsupported; `AttributeError` when a row is not a dict; otherwise the row blocks joined by blank lines, for rows of any iterable (a tuple of dicts formats normally, an empty string or dict gives the empty string) |
| QueryUtils.FormatRows | autonogy_constructor/idea/query_team/utils.py:98-109 | the row loop gives the blocks joined by blank lines exactly when every row is a dict, and `AttributeError` otherwise |
| QueryUtils.RowLinesNamed | autonogy_constructor/idea/query_team/utils.py:100-103 | each named line is the name and then the row's `var{i}` value, or `N/A` when the row has none |
| QueryUtils.AppendBullets | autonogy_constructor/idea/query_team/utils.py:114-115 | the item loop appends one bullet line per item |
| QueryUtils.FormatClassInfo | autonogy_constructor/idea/query_team/utils.py:111-119 | the text is the information heading, its bullets, the source heading and its bullets, one per line |
| QueryUtils.ClassInfoShape | autonogy_constructor/idea/query_team/utils.py:111-119 | split into lines, the text has the two headings at their places, each item on its own bullet line, and a final newline |
| QueryUtils.NoNewlineQuoted | autonogy_constructor/idea/query_team/utils.py:113-116 | a heading adds no line break to a name without one |
| QueryUtils.RestrictionLines | autonogy_constructor/idea/query_team/utils.py:124-127 | three lines per restriction |
| QueryUtils.FormatRestrictions | autonogy_constructor/idea/query_team/utils.py:121-128 | the heading, then the lines for each restriction, one per line |
| QueryUtils.RestrictionLinesAt | autonogy_constructor/idea/query_team/utils.py:125-127 | restriction i prints as its type, its value and `---`, at lines 3i to 3i+2 |
| QueryUtils.AppendSection | autonogy_constructor/idea/query_team/utils.py:133-140 | a titled section adds its title and one bullet per item |
| QueryUtils.FormatHierarchy | autonogy_constructor/idea/query_team/utils.py:130-141 | the heading, then the parents and children sections |
| QueryUtils.HierarchySections | autonogy_constructor/idea/query_team/utils.py:133-140 | the Parents section appears exactly when there are parents, and the Children section exactly when there are children |
| OntologyText.FlatMapSnoc | autonogy_constructor/utils.py:7-9 | one more element appends its block of lines |
| OntologyText.FlatMapStep | autonogy_constructor/utils.py:7-9 | one pass of a loop appends the block of the current element |
| OntologyText.FlatMapPairs | autonogy_constructor/utils.py:7-9 | two-line blocks put element i's lines at 2i and 2i+1 |
| OntologyText.HeadedPairs | autonogy_constructor/utils.py:6-9 | after a header line, element i's two lines sit at 1+2i and 2+2i, and what follows starts right after them |
| OntologyText.AppendEndpoint | autonogy_constructor/utils.py:36-49 | a domain or range block appends its title, existence, and its entity and type lines when present |
| OntologyText.AppendEntities | autonogy_constructor/utils.py:7-9 | the entity loop appends each entity's Name and Information lines, in order |
| OntologyText.AppendDataProperties | autonogy_constructor/utils.py:26-31 | the data-property loop appends each property's lines, in order |
| OntologyText.AppendObjectProperty | autonogy_constructor/utils.py:35-51 | one object property appends its name, its domain and range blocks, its restriction and its information |
| OntologyText.AppendObjectProperties | autonogy_constructor/utils.py:34-51 | the object-property loop appends each property's lines, in order |
| OntologyText.OntologyToString | autonogy_constructor/utils.py:3-53 | the result is the ontology's lines joined by newlines |
| OntologyText.EntitiesFirst | autonogy_constructor/utils.py:6-24 | the text opens with `Entities:`, then a Name and an Information line per entity, in order, and then the Data Properties header, which is always printed |
| OntologyText.DataSectionPlace | autonogy_constructor/utils.py:24-33 | data-property lines are printed only when the list is present, and the Object Properties header follows them |
| OntologyText.DataPropertyShape | autonogy_constructor/utils.py:27-31 | a data property prints its Name line first and Information last, with a Values line exactly when it has values |
| OntologyText.EndpointShape | autonogy_constructor/utils.py:37-49 | a domain or range block starts with its title and always prints Existence; the Entity and Type lines appear exactly when present |
| OntologyText.OptEndpointTitles | autonogy_constructor/utils.py:36-44 | only a present block prints a title line, and it is its own title |
| OntologyText.ObjectPropertyShape | autonogy_constructor/utils.py:35-51 | an object property prints Name first, Restriction and Information last, and a Domain (Range) block exactly when it has a domain (range) |
| Settings.BodyRun | config/settings.py:15 | the longest run of `[^}^{]` characters at the start |
| Settings.BodyRunOf | config/settings.py:15 | a run of body characters followed by any other character is matched whole |
| Settings.FindToken | config/settings.py:26 | `search` finds the leftmost reference at or after a position, or reports that there is none |
| Settings.TokenText | config/settings.py:30 | `match.group(0)` is `{{`, the body and `}}`, read from the string |
| Settings.ResolveValue | config/settings.py:24-31 | a non-string, or a string without a reference, is returned unchanged; a string stays a string |
| Settings.Resolve | config/settings.py:33-39 | every key is kept, in order; a dict value is resolved on its own, any other value against its own level |
| Settings.ResolveKeyReferences | config/settings.py:23-39 | the recursive loop builds exactly that resolution |
| Settings.NestedResolvedAlone | config/settings.py:35-36 | a nested dict is resolved against itself only |
| Settings.ResolveUnique | config/settings.py:33-39 | the result has distinct keys at every level |
| Settings.ResolveWithoutReferences | config/settings.py:23-39 | a configuration without references is returned unchanged |
| Settings.LeadingToken | config/settings.py:26-28 | a reference written at the start of a string is the one found, with its body as group 1 |
| Settings.FirstReferenceOnly | config/settings.py:26-31 | only the first reference is looked up: when its key is missing the string stays as it is |
| Settings.FirstReferenceReplaced | config/settings.py:28-30 | with the trimmed key present, every copy of the reference text is replaced by `str` of the key's raw value |
| Settings.PathMatch | config/settings.py:14-19 | `match` succeeds only on `${`, a non-empty body and `}` at the start |
| Settings.PathConstructor | config/settings.py:17-21 | the constructor succeeds exactly when the pattern matches at the start |
| Settings.PathExpands | config/settings.py:17-21 | `${NAME}` followed by any text gives NAME's value, or nothing when it is unset, followed by that text |
| Settings.PathNeedsPrefix | config/settings.py:19-20 | a scalar that does not start with `${` is refused |
| StateManagement.InitialGroups | autology_constructor/idea/state_manager.py:52-82 | a fresh state has stage `querying` and status `initialized` under `Control`, and analysis type `single_domain` under `Input` |
| StateManagement.ControlFields | autology_constructor/idea/state_manager.py:53-57 | the `Control` group starts with stage `querying` and status `initialized` |
| StateManagement.InputFields | autology_constructor/idea/state_manager.py:58-62 | the `Input` group starts with analysis type `single_domain` |
| StateManagement.CapitalisedKeys | autology_constructor/idea/state_manager.py:52-82 | a lower-case key is absent from a dict whose keys are all capitalised |
| StateManagement.InitialFlatKeysMissing | autology_constructor/idea/state_manager.py:52-82 | the fresh state holds no flat lower-case key such as `stage` or `messages` |
| StateManagement.DictUpdateLookup | autology_constructor/idea/state_manager.py:88 | after `dict.update` a key holds its updated value when updated and its old value otherwise |
| StateManagement.UpdateAllLookup | autology_constructor/idea/state_manager.py:84-90 | `update_state` merges a dict into a stored dict, overwrites any other value, and leaves keys outside the updates untouched |
| StateManagement.StateManager.constructor | autology_constructor/idea/state_manager.py:50-82 | the manager starts with the nested initial state |
| StateManagement.StateManager.UpdateState | autology_constructor/idea/state_manager.py:84-90 | the loop leaves the state the specification's update gives |
| StateManagement.StateManager.ExtendGaps | autology_constructor/idea/state_manager.py:128-130 | the gap loop extends each reported gap list in order, stopping at the first exception |
| StateManagement.GapsKeepOthers | autology_constructor/idea/state_manager.py:128-130 | the gap loop changes no key but `gap_analysis` |
| StateManagement.StateManager.HandleTeamResult | autology_constructor/idea/state_manager.py:119-140 | the method leaves the state, and raises the exception, that the specification of the dream and critic branches gives; other teams change nothing |
| StateManagement.DreamRecordsLastIdea | autology_constructor/idea/state_manager.py:121-125 | a dream result with ideas makes the last idea current and appends it to the stored ideas |
| StateManagement.CriticPath | autology_constructor/idea/state_manager.py:133-139 | a non-empty dict evaluation is appended and its flag copied before the current idea is looked at |
| StateManagement.CriticRecordsEvaluation | autology_constructor/idea/state_manager.py:132-140 | a critic result appends its evaluation, sets `needs_improvement` from it (False by default), and attaches it to a current idea that is a dict; a falsy current idea is left alone |
| StateManagement.StateManager.HandleError | autology_constructor/idea/state_manager.py:153-162 | the method leaves the state and exception of the specification |
| StateManagement.ErrorRecorded | autology_constructor/idea/state_manager.py:153-162 | the error's type, message, context and current stage are recorded, and exactly one message naming the stage is appended |
| StateManagement.StateManager.RollbackToPrevious | autology_constructor/idea/state_manager.py:164-168 | the method leaves the state and exception of the specification |
| StateManagement.RollbackMoves | autology_constructor/idea/state_manager.py:164-168 | with a previous stage, the stage moves there and one message is appended; otherwise nothing changes |
| StateManagement.StateManager.AddMessage | autology_constructor/idea/state_manager.py:170-172 | the method leaves the state and exception of the specification |
| StateManagement.MessageAppended | autology_constructor/idea/state_manager.py:170-172 | exactly the message is appended; with no message list the call raises `KeyError('messages')` and changes nothing |
| StateManagement.FreshManagerReads | autology_constructor/idea/state_manager.py:52-82 | on a fresh manager `handle_error`, rollback and `add_message` raise `KeyError` on their flat key and change nothing |
| StateManagement.FlatReadsFail | autology_constructor/idea/state_manager.py:159-172 | without the flat keys the three operations raise `KeyError` and change nothing |
| Workflow.OwlFiles | autology_constructor/idea/workflow.py:22 | a file is kept exactly when it is in the listing and ends in `.owl` |
| Workflow.FirstOwl | autology_constructor/idea/workflow.py:22 | the first `.owl` entry at or after a position, or none when there is none |
| Workflow.OwlFilesFrom | autology_constructor/idea/workflow.py:22 | the `.owl` files of a suffix are its first `.owl` entry followed by those after it |
| Workflow.SelectOntologies | autology_constructor/idea/workflow.py:22-37 | only `ValueError` is raised; the analysis is `single_domain` exactly when there is no target, and `cross_domain` otherwise |
| Workflow.SelectionFails | autology_constructor/idea/workflow.py:22-24 | the selection fails exactly when the listing has no `.owl` file |
| Workflow.SelectionFirstTwo | autology_constructor/idea/workflow.py:30-37 | the source is the first `.owl` file joined to the folder, and the target the second one when there is one, with no target otherwise |
| Workflow.RouteExecution | autology_constructor/idea/workflow.py:71-83 | the next node is one of query, dream, critic and end; routing succeeds exactly when requests are pending or the stage is one the map knows |
| Workflow.StageTable | autology_constructor/idea/workflow.py:74-83 | without pending requests: querying goes to dream, dreaming to critic, critiquing to dream exactly when improvement is needed and to end otherwise; a missing stage or any other string stage raises `KeyError` |
| Workflow.QueryResult | autology_constructor/idea/workflow.py:85-108 | a missing query state raises `KeyError`, one that is not a dict has no `get`, and the previous stage is always the current one |
| Workflow.QuerySucceeded | autology_constructor/idea/workflow.py:89-102 | a successful query returns to the previous stage (`KeyError` when it is missing), copies the results and the ontology analysis among them, reports success last, and records no error |
| Workflow.QueryFailed | autology_constructor/idea/workflow.py:88-106 | a failed query moves to stage `error`, records the team's error or `Unknown error in query`, adds one message naming it, and copies no results |
| Workflow.CriticHandled | autology_constructor/idea/workflow.py:163-175 | the handler fails exactly when the critic state is not a dict |
| Workflow.CriticDecides | autology_constructor/idea/workflow.py:163-175 | the handler moves to `dreaming` exactly when improvement is asked for and to `end` otherwise, keeps the research ideas only when improving, and the router then sends `dreaming` to the critic team and raises `KeyError` on `end` |
| DreamerWorkflow.MissingKeys | autology_constructor/idea/dreamer_team/dreamer_workflow.py:111 | the comprehension fails only on an analysis that cannot be searched, and otherwise keeps exactly the required keys the analysis lacks |
| DreamerWorkflow.MissingKeysOrder | autology_constructor/idea/dreamer_team/dreamer_workflow.py:111 | the missing keys keep required-key order: those of a prefix come before those of the rest |
| DreamerWorkflow.AspectRequests | autology_constructor/idea/dreamer_team/dreamer_workflow.py:114-119 | one request per missing aspect |
| DreamerWorkflow.AssessInformation | autology_constructor/idea/dreamer_team/dreamer_workflow.py:92-122 | a request for queries always holds at least one request and exactly one message |
| DreamerWorkflow.EmptyAnalysisRequest | autology_constructor/idea/dreamer_team/dreamer_workflow.py:94-107 | a missing or empty analysis gives exactly one request, `Analyze domain structure` from `dream`, with one message, and `KeyError` without a source ontology |
| DreamerWorkflow.Absent | autology_constructor/idea/dreamer_team/dreamer_workflow.py:111 | the required keys a dict lacks, in order |
| DreamerWorkflow.MissingKeysDict | autology_constructor/idea/dreamer_team/dreamer_workflow.py:111 | on a dict analysis the comprehension gives exactly the absent keys |
| DreamerWorkflow.DictAnalysisRequests | autology_constructor/idea/dreamer_team/dreamer_workflow.py:108-122 | a non-empty analysis proceeds exactly when no required key is absent; otherwise request i asks the query team, for `dream`, to complete the i-th absent key, and the one message lists them all |
| DreamerWorkflow.RequiredKeysByType | autology_constructor/idea/dreamer_team/dreamer_workflow.py:108-110 | the three base keys, and the two cross-domain keys after them exactly when the analysis is `cross_domain` |
| DreamerWorkflow.RouteAfterAssessment | autology_constructor/idea/dreamer_team/dreamer_workflow.py:126-127 | `start_analysis` exactly when `can_proceed` is truthy, `need_info` otherwise |
| DreamerWorkflow.RouteAnalysis | autology_constructor/idea/dreamer_team/dreamer_workflow.py:129-133 | `methodology` exactly when a target ontology is present, `evidence` otherwise |
| DreamerWorkflow.AssessmentRoutes | autology_constructor/idea/dreamer_team/dreamer_workflow.py:122-127 | for a state that could not proceed, merging any assessment's answer as a plain dict update leads to `start_analysis` exactly when the assessment is `CanProceed`, and to `need_info` otherwise |
| DreamerWorkflow.MergeAssessmentLookup | autology_constructor/idea/dreamer_team/dreamer_workflow.py:92-122 | after the answer `assess_information_sufficiency` returns is merged, each key it returns (`can_proceed`, or `query_requests` and `messages`) holds the returned value and every other key keeps its value |
| DreamerWorkflow.FindersRun | autology_constructor/idea/dreamer_team/dreamer_workflow.py:59-61 | a finder runs exactly when it is listed and not skipped |
| DreamerWorkflow.GapsFor | autology_constructor/idea/dreamer_team/dreamer_workflow.py:62 | the gaps are keyed by exactly the finders that run, in order |
| DreamerWorkflow.FindersRunStep | autology_constructor/idea/dreamer_team/dreamer_workflow.py:59-61 | one more finder type runs after the earlier ones unless skipped, and was not run before |
| DreamerWorkflow.GapsForSnoc | autology_constructor/idea/dreamer_team/dreamer_workflow.py:62 | one more finder adds its gap analysis under its type |
| DreamerWorkflow.IdeasForSnoc | autology_constructor/idea/dreamer_team/dreamer_workflow.py:63 | one more finder adds its ideas after the earlier ones |
| DreamerWorkflow.RunFinders | autology_constructor/idea/dreamer_team/dreamer_workflow.py:57-63 | the loop stores the gaps of every finder that runs under its type and collects their ideas in finder order |
| DreamerWorkflow.FirstTwoFinders | autology_constructor/idea/dreamer_team/dreamer_workflow.py:59-61 | the evidence and knowledge finders always run, in that order |
| DreamerWorkflow.FinderSkipRule | autology_constructor/idea/dreamer_team/dreamer_workflow.py:59-61 | a cross-domain analysis runs all four finders in order; any other runs only the evidence and knowledge finders |
| DreamerWorkflow.CrossDomainFinders | autology_constructor/idea/dreamer_team/dreamer_workflow.py:59-61 | a cross-domain analysis runs every finder type in order |
| DreamerWorkflow.SingleDomainFinders | autology_constructor/idea/dreamer_team/dreamer_workflow.py:59-61 | any other analysis runs the evidence and knowledge finders only |
| DreamerWorkflow.GapCategoriesReported | autology_constructor/idea/dreamer_team/dreamer_workflow.py:72-75 | the report counts four gap categories for a cross-domain analysis and two otherwise |
| FinderRecords.HasFields | autology_constructor/idea/dreamer_team/knowledge_finder.py:68 | `all(field in item ...)` holds exactly when every field is found in the item |
| FinderRecords.FirstInvalid | autology_constructor/idea/dreamer_team/knowledge_finder.py:67-69 | the loop stops at the first item lacking a field, all before it valid; it finds none exactly when every item is valid |
| FinderRecords.ParseRecords | autology_constructor/idea/dreamer_team/knowledge_finder.py:61-73 | the result is either the decoded value itself or the empty list |
| FinderRecords.RecordsAllOrNothing | autology_constructor/idea/dreamer_team/knowledge_finder.py:63-73 | a list of records is returned unchanged, order and extra fields kept, exactly when every record holds every field; otherwise the result is `[]` |
| FinderRecords.EmptyAndInvalid | autology_constructor/idea/dreamer_team/knowledge_finder.py:63-73 | an empty list is returned as it is, and invalid JSON gives `[]` |
| FinderRecords.ScalarRejected | autology_constructor/idea/dreamer_team/knowledge_finder.py:67-73 | a number, a boolean or `null` cannot be iterated and gives `[]` |
| KnowledgeFinder.GapsRequireFields | autology_constructor/idea/dreamer_team/knowledge_finder.py:61-73 | gaps come back unchanged exactly when each holds `conflict_type`, `elements`, `chemical_basis`, `impact` and `confidence`, and `[]` otherwise |
| KnowledgeFinder.IdeasRequireFields | autology_constructor/idea/dreamer_team/knowledge_finder.py:75-87 | ideas come back unchanged exactly when each holds `gap_addressed`, `research_question`, `theoretical_basis`, `experimental_approach` and `expected_resolution`, and `[]` otherwise |
| MetaScienceFinder.GapsRequireFields | autology_constructor/idea/dreamer_team/meta_science_finder.py:58-70 | gaps come back unchanged exactly when each holds all six fields from `difference_type` to `confidence`, and `[]` otherwise |
| MetaScienceFinder.IdeasRequireFields | autology_constructor/idea/dreamer_team/meta_science_finder.py:72-84 | ideas come back unchanged exactly when each holds `gap_addressed`, `research_question`, `theoretical_framework`, `practical_applications` and `expected_impact`, and `[]` otherwise |

## Left out

- The owlready2 library is not modelled. Loading and saving the ontology (`onto.save()`), namespace lookup, and real `AllDisjoint`, `GeneralClassAxiom` and `Restriction` objects are replaced by values: classes and properties are map entries, and class expressions are datatype terms. These are foreign library behaviour.
- The Pellet reasoner behind `get_inconsistent_classes` is foreign code.
- `get_semantic_similarity` and the other floating-point scoring are left out: floating point is out of scope.
- `get_information_sources`, `get_property_restrictions`, `get_property_values`, `get_ancestors`, `get_descendants`, `parse_class_definition` and `parse_property_definition` are not modelled. They are one-line owlready2 queries with no logic of their own, outside the modelled query helpers.
- OntologyTools.GetClassInfo, Parents, Children, ClassProperties, RelatedClasses and DisjointClasses require the class to exist. In the source a name the ontology does not know looks up `None`, and the call then fails with an `AttributeError` that the model does not state.
- OntologyTools.PropertyPath requires every class a relation points to to be a class of the ontology, and a start class that exists. The source crashes on an unknown class reached during the search, and the model does not state that crash.
- OntologyTools.BuildTreeFaithful, BuildTree and ParseHierarchy require a rank that decreases along `is_a` edges. On a cyclic hierarchy the source recurses until Python's recursion limit, which the model does not state.
- File reads and writes, `os.path` and `json.load`/`json.dump` in the builder-team extractors are left out. A file's contents are a parameter (`None` for a missing or empty file), and the list written back is the result.
- JSON decoding (`json.loads`) is a parameter: the decoded value, or `None` for invalid text.
- `print` and `warnings.warn` output is not modelled. Where a warning decides nothing it is dropped; loading individuals returns the individuals it warns about.
- All language-model and dspy calls are left out, as are prompt templates and the finders' `analyze_gaps`/`generate_ideas`. These are nondeterministic external services. The finder calls in `analyze_domain` are function parameters.
- The exception path of `analyze_domain` is not modelled: it depends on what the external calls raise.
- LangGraph wiring (`add_node`, `add_edge`, `compile`) and LangGraph's merging of a node's returned dict into the graph state are left out. Routers and handlers are modelled on the state they receive.
- DreamerWorkflow.MergeAssessment: merges the answer of `assess_info` as a plain dict update. LangGraph's reducers are not modelled: `messages` is declared with `add_messages` (dreamer_workflow.py:30), so LangGraph appends to it rather than replacing it. `can_proceed` and `query_requests`, which `DreamerState` does not declare, are assumed to be kept. `AssessmentRoutes` holds under that assumption; it reads only `can_proceed`, so the `messages` difference does not affect the route.
- YAML loading, the loader's resolver and constructor registration, and the module-level ontology loading in `config/settings.py` are I/O. The environment of `path_constructor` is a map parameter.
- `StateManager.prepare_team_state` and `StateManager.handle_query_result` are outside the modelled state operations. They read and update flat keys such as `current_class`, `ontology_info` and `query_results`, which exist only after `update_state` has written them.
- StateManagement.StateManager: the state dict's nested values are values, not shared objects. In the source `current_idea` and the idea appended to `research_ideas` are the same dict, so attaching an evaluation to the current idea also changes the stored idea; the model updates `current_idea` only.
- Python dicts are ordered lists of entries with distinct string keys. Dicts with non-string keys, floats and other Python types outside `Values.Value` are not modelled.
- Iteration order of a Python set is not modelled. A set is a sequence in a fixed order, and results the source sorts are proved sorted.
- `str` of a container quotes strings without escaping quotes or special characters inside them, unlike Python's `repr`.
- Text.Lower lowercases ASCII letters only, so ConceptParser keys and classifications are lowercased in ASCII. Python's `str.lower` lowercases every Unicode letter.
- `\w` in the SPARQL variable pattern is taken as the ASCII letters, digits and underscore. Python's Unicode word characters are not modelled.
- Payload.DataProperty keeps its `values` as a list of (owner, value) string pairs. The source's `values` dict takes values of any Python type, and the merge compares them with Python equality.
- The payload types' validation (pydantic type coercion and field checks) is not modelled. Payloads are well-typed Dafny values.
