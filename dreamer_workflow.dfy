/** `autology_constructor/idea/dreamer_team/dreamer_workflow.py`: the check
    that the ontology analysis holds what the dream team needs, the two
    routers of the dreamer graph, and which finders `analyze_domain` runs.
    The finders' gap analysis and idea generation are calls to a language
    model; they are parameters here. */
module DreamerWorkflow {
  import opened Wrappers
  import Removal
  import opened Text
  import opened Values

  // ---------------------------------------------------------------------
  // assess_information_sufficiency
  // ---------------------------------------------------------------------

  const BaseKeys: seq<string> := ["core_concepts", "key_patterns", "research_opportunities"]
  const CrossDomainKeys: seq<string> := ["analogies", "transfer_opportunities"]

  /** The keys the analysis must hold: the base keys, and the two
      cross-domain keys after them for a cross-domain analysis. */
  function RequiredKeys(analysisType: Value): seq<string> {
    BaseKeys + if analysisType == Str("cross_domain") then CrossDomainKeys else []
  }

  /** `[k for k in keys if k not in analysis]`; the membership test raises
      on an analysis that cannot be searched. */
  function MissingKeys(keys: seq<string>, analysis: Value): (r: Result<seq<string>, PyError>)
    ensures r.Err? <==> keys != [] && Elements(analysis).None?
    ensures r.Ok? ==> forall k :: k in r.value <==> k in keys && Member(k, analysis) == Ok(false)
  {
    if keys == [] then Ok([])
    else match Member(keys[0], analysis)
      case Err(e) => Err(e)
      case Ok(found) =>
        match MissingKeys(keys[1..], analysis)
        case Err(e) => Err(e)
        case Ok(rest) => Ok(if found then rest else [keys[0]] + rest)
  }

  /** The first key is reported ahead of the missing keys of the rest. */
  lemma MissingKeysHead(keys: seq<string>, analysis: Value)
    requires keys != [] && MissingKeys(keys, analysis).Ok?
    ensures MissingKeys(keys[1..], analysis).Ok?
    ensures MissingKeys(keys, analysis).value
            == (if Member(keys[0], analysis) == Ok(true) then [] else [keys[0]]) + MissingKeys(keys[1..], analysis).value
  {
  }

  lemma Regroup(head: seq<string>, middle: seq<string>, back: seq<string>,
                whole: seq<string>, rest: seq<string>, front: seq<string>)
    requires whole == head + rest && rest == middle + back && front == head + middle
    ensures whole == front + back
  {
  }

  /** The missing keys keep the order of `keys`: they are `keys` with the
      present ones dropped. */
  lemma {:induction false} MissingKeysOrder(keys: seq<string>, analysis: Value, i: nat)
    requires MissingKeys(keys, analysis).Ok? && i <= |keys|
    ensures MissingKeys(keys[i..], analysis).Ok?
    ensures MissingKeys(keys, analysis).value
            == MissingKeys(keys[..i], analysis).value + MissingKeys(keys[i..], analysis).value
    decreases i
  {
    if i > 0 {
      var front := keys[..i];
      assert keys[1..][i - 1..] == keys[i..];
      assert front[0] == keys[0] && front[1..] == keys[1..][..i - 1];
      MissingKeysHead(keys, analysis);
      MissingKeysOrder(keys[1..], analysis, i - 1);
      MissingKeysHead(front, analysis);
      Regroup(if Member(keys[0], analysis) == Ok(true) then [] else [keys[0]],
              MissingKeys(keys[1..][..i - 1], analysis).value, MissingKeys(keys[i..], analysis).value,
              MissingKeys(keys, analysis).value, MissingKeys(keys[1..], analysis).value, MissingKeys(front, analysis).value);
    } else {
      assert keys[..0] == [] && keys[0..] == keys;
    }
  }

  /** A query the dream team sends to the query team. */
  datatype QueryRequest = QueryRequest(query: string, requester: string, priority: int, context: Entries)

  /** What the assessment returns: query requests with one message, or
      `{"can_proceed": True}`. */
  datatype Assessment = NeedsQuery(requests: seq<QueryRequest>, messages: seq<string>) | CanProceed

  /** The list `missing` as a Python value. */
  function StrList(xs: seq<string>): (r: Value)
  {
    List(seq(|xs|, i requires 0 <= i < |xs| => Str(xs[i])))
  }

  /** One request per missing aspect, each carrying the whole list. */
  function AspectRequests(missing: seq<string>): (r: seq<QueryRequest>)
    ensures |r| == |missing|
  {
    seq(|missing|, i requires 0 <= i < |missing| =>
      QueryRequest("Complete analysis for " + missing[i], "dream", 1, [("missing_aspects", StrList(missing))]))
  }

  /** `assess_information_sufficiency` */
  function AssessInformation(state: Entries): (r: Result<Assessment, PyError>)
    ensures r.Ok? && r.value.NeedsQuery? ==> r.value.requests != [] && |r.value.messages| == 1
  {
    var analysis := Get(state, "ontology_analysis", Dict([]));
    if !Truthy(analysis) then
      match Index(state, "source_ontology")
      case Err(e) => Err(e)
      case Ok(source) =>
        Ok(NeedsQuery([QueryRequest("Analyze domain structure", "dream", 1,
                                    [("source_ontology", source), ("target_ontology", Get(state, "target_ontology", NoneV))])],
                      ["Need domain structure analysis"]))
    else
      match Index(state, "analysis_type")
      case Err(e) => Err(e)
      case Ok(analysisType) =>
        match MissingKeys(RequiredKeys(analysisType), analysis)
        case Err(e) => Err(e)
        case Ok(missing) =>
          if missing == [] then Ok(CanProceed)
          else Ok(NeedsQuery(AspectRequests(missing), ["Missing analysis aspects: " + Join(missing, ", ")]))
  }

  /** A missing or empty analysis yields exactly one request, for the
      domain structure, from the dream team. */
  lemma EmptyAnalysisRequest(state: Entries)
    requires !Truthy(Get(state, "ontology_analysis", Dict([])))
    ensures !HasKey(state, "source_ontology") ==> AssessInformation(state) == Err(KeyError("source_ontology"))
    ensures HasKey(state, "source_ontology") ==>
              var r := AssessInformation(state);
              r.Ok? && r.value.NeedsQuery? && |r.value.requests| == 1
              && r.value.requests[0].query == "Analyze domain structure"
              && r.value.requests[0].requester == "dream"
              && r.value.messages == ["Need domain structure analysis"]
  {
  }

  /** The keys of `keys` a dict does not hold, in order. */
  function Absent(keys: seq<string>, d: Entries): (r: seq<string>)
    ensures forall k :: k in r <==> k in keys && !HasKey(d, k)
  {
    if keys == [] then []
    else (if HasKey(d, keys[0]) then [] else [keys[0]]) + Absent(keys[1..], d)
  }

  /** On a dict, the comprehension keeps exactly the absent keys. */
  lemma {:induction false} MissingKeysDict(keys: seq<string>, d: Entries)
    ensures MissingKeys(keys, Dict(d)) == Ok(Absent(keys, d))
  {
    if keys != [] {
      MissingKeysDict(keys[1..], d);
      assert Member(keys[0], Dict(d)) == Ok(HasKey(d, keys[0]));
      if HasKey(d, keys[0]) {
        assert Absent(keys, d) == Absent(keys[1..], d);
      }
    }
  }

  /** For a non-empty dict analysis: the analysis can proceed exactly when
      no required key is absent; otherwise request `i` asks, for the dream
      team, for the `i`-th absent required key, in required-key order. */
  lemma DictAnalysisRequests(state: Entries)
    requires var a := Get(state, "ontology_analysis", Dict([])); a.Dict? && a.entries != []
    requires HasKey(state, "analysis_type")
    ensures var absent := Absent(RequiredKeys(Lookup(state, "analysis_type").value),
                                 Get(state, "ontology_analysis", Dict([])).entries);
            var r := AssessInformation(state);
            r.Ok?
            && (r.value == CanProceed <==> absent == [])
            && (r.value.NeedsQuery? ==>
                  |r.value.requests| == |absent|
                  && (forall i :: 0 <= i < |absent| ==>
                        r.value.requests[i].query == "Complete analysis for " + absent[i]
                        && r.value.requests[i].requester == "dream")
                  && r.value.messages == ["Missing analysis aspects: " + Join(absent, ", ")])
  {
    var analysis := Get(state, "ontology_analysis", Dict([]));
    var keys := RequiredKeys(Lookup(state, "analysis_type").value);
    MissingKeysDict(keys, analysis.entries);
    assert Truthy(analysis);
  }

  /** A cross-domain analysis needs the two cross-domain keys after the
      three base keys; any other analysis type needs the base keys only. */
  lemma RequiredKeysByType(analysisType: Value)
    ensures |RequiredKeys(analysisType)| == if analysisType == Str("cross_domain") then 5 else 3
    ensures RequiredKeys(analysisType)[..3] == BaseKeys
    ensures "analogies" in RequiredKeys(analysisType) <==> analysisType == Str("cross_domain")
  {
    if analysisType != Str("cross_domain") {
      assert RequiredKeys(analysisType) == BaseKeys;
      assert BaseKeys[0][0] == 'c' && BaseKeys[1][0] == 'k' && BaseKeys[2][0] == 'r';
    } else {
      assert RequiredKeys(analysisType)[3] == "analogies";
    }
  }

  // ---------------------------------------------------------------------
  // route_after_assessment, route_analysis
  // ---------------------------------------------------------------------

  /** `route_after_assessment` */
  function RouteAfterAssessment(state: Entries): (r: string)
    ensures r in {"start_analysis", "need_info"}
    ensures r == "start_analysis" <==> Truthy(Get(state, "can_proceed", Bool(false)))
  {
    if Truthy(Get(state, "can_proceed", Bool(false))) then "start_analysis" else "need_info"
  }

  /** `route_analysis` */
  function RouteAnalysis(state: Entries): (r: string)
    ensures r in {"methodology", "evidence"}
    ensures r == "methodology" <==> Truthy(Get(state, "target_ontology", NoneV))
  {
    if Truthy(Get(state, "target_ontology", NoneV)) then "methodology" else "evidence"
  }

  /** A query request as the dictionary `assess_information_sufficiency` returns. */
  function RequestValue(q: QueryRequest): Value {
    Dict([("query", Str(q.query)), ("requester", Str(q.requester)),
          ("priority", Int(q.priority)), ("context", Dict(q.context))])
  }

  /** The requests of an assessment as the list of dictionaries it returns. */
  function RequestsValue(requests: seq<QueryRequest>): Value {
    List(seq(|requests|, i requires 0 <= i < |requests| => RequestValue(requests[i])))
  }

  /** The dict `assess_information_sufficiency` returns for an assessment. */
  function Answer(a: Assessment): Entries {
    match a
    case CanProceed => [("can_proceed", Bool(true))]
    case NeedsQuery(requests, messages) =>
      [("query_requests", RequestsValue(requests)), ("messages", StrList(messages))]
  }

  /** The graph state after the assessment's answer is merged into it. */
  function MergeAssessment(state: Entries, a: Assessment): Entries {
    match a
    case CanProceed => Store(state, "can_proceed", Bool(true))
    case NeedsQuery(requests, messages) =>
      Store(Store(state, "query_requests", RequestsValue(requests)), "messages", StrList(messages))
  }

  /** The merge is a plain dict update by the answer: a key the answer
      returns holds the returned value, every other key keeps its value. */
  lemma MergeAssessmentLookup(state: Entries, a: Assessment, k: string)
    ensures Lookup(MergeAssessment(state, a), k) ==
              if HasKey(Answer(a), k) then Lookup(Answer(a), k) else Lookup(state, k)
  {
    match a
    case CanProceed =>
      StoreLookup(state, "can_proceed", Bool(true), k);
      var ans := Answer(a);
      assert ans[1..] == [];
      if k == "can_proceed" {
        assert Lookup(ans, k) == Some(Bool(true));
      } else {
        assert Lookup(ans, k) == None;
      }
    case NeedsQuery(requests, messages) =>
      StoreLookup(state, "query_requests", RequestsValue(requests), k);
      StoreLookup(Store(state, "query_requests", RequestsValue(requests)), "messages", StrList(messages), k);
      var ans := Answer(a);
      assert ans[1..] == [("messages", StrList(messages))];
      assert ans[1..][1..] == [];
      if k == "query_requests" {
        assert Lookup(ans, k) == Some(RequestsValue(requests));
      } else if k == "messages" {
        assert Lookup(ans, k) == Some(StrList(messages));
      } else {
        assert Lookup(ans, k) == None;
      }
  }

  /** The assessment's verdict, merged into the state, decides the route:
      a state that could not proceed before starts the analysis after a
      `CanProceed` assessment and still asks for information after one that
      needs queries. */
  lemma AssessmentRoutes(state: Entries, a: Assessment)
    requires !Truthy(Get(state, "can_proceed", Bool(false)))
    ensures RouteAfterAssessment(MergeAssessment(state, a)) == if a == CanProceed then "start_analysis" else "need_info"
  {
    MergeAssessmentLookup(state, a, "can_proceed");
    var ans := Answer(a);
    if a.NeedsQuery? {
      assert ans[1..] == [ans[1]] && ans[1..][1..] == [];
      assert Lookup(ans, "can_proceed") == None;
    } else {
      assert Lookup(ans, "can_proceed") == Some(Bool(true));
    }
  }


  // ---------------------------------------------------------------------
  // The finder loop of analyze_domain
  // ---------------------------------------------------------------------

  const FinderTypes: seq<string> := ["evidence", "knowledge", "methodology", "meta_science"]

  /** The finders `analyze_domain` skips for this analysis type. */
  predicate Skipped(finder: string, analysisType: Value) {
    (finder == "methodology" || finder == "meta_science") && analysisType != Str("cross_domain")
  }

  /** The finders of `types` that run, in order. */
  function FindersRun(types: seq<string>, analysisType: Value): (r: seq<string>)
    ensures forall f :: f in r <==> f in types && !Skipped(f, analysisType)
  {
    if types == [] then []
    else
      var init := FindersRun(types[..|types| - 1], analysisType);
      var last := types[|types| - 1];
      assert types == types[..|types| - 1] + [last];
      if Skipped(last, analysisType) then init else init + [last]
  }

  /** The gap analysis of every finder that runs, keyed by finder type. */
  function GapsFor(types: seq<string>, analyzeGaps: string -> Value): (r: Entries)
    ensures Keys(r) == types
  {
    seq(|types|, i requires 0 <= i < |types| => (types[i], analyzeGaps(types[i])))
  }

  /** The ideas of every finder that runs, in finder order. */
  function IdeasFor(types: seq<string>, analyzeGaps: string -> Value,
                    generateIdeas: (string, Value) -> seq<Value>): seq<Value>
  {
    if types == [] then []
    else
      var last := types[|types| - 1];
      IdeasFor(types[..|types| - 1], analyzeGaps, generateIdeas) + generateIdeas(last, analyzeGaps(last))
  }

  /** One more finder type: it is run after the earlier ones unless it is
      skipped, and it was not among them. */
  lemma FindersRunStep(i: nat, analysisType: Value)
    requires i < |FinderTypes|
    ensures FindersRun(FinderTypes[..i + 1], analysisType)
            == FindersRun(FinderTypes[..i], analysisType)
               + if Skipped(FinderTypes[i], analysisType) then [] else [FinderTypes[i]]
    ensures FinderTypes[i] !in FindersRun(FinderTypes[..i], analysisType)
  {
    Removal.PrefixOfPrefix(FinderTypes, i);
    assert FinderTypes[i] !in FinderTypes[..i];
  }

  lemma GapsForSnoc(types: seq<string>, t: string, analyzeGaps: string -> Value)
    ensures GapsFor(types + [t], analyzeGaps) == GapsFor(types, analyzeGaps) + [(t, analyzeGaps(t))]
  {
  }

  lemma IdeasForSnoc(types: seq<string>, t: string, analyzeGaps: string -> Value,
                     generateIdeas: (string, Value) -> seq<Value>)
    ensures IdeasFor(types + [t], analyzeGaps, generateIdeas)
            == IdeasFor(types, analyzeGaps, generateIdeas) + generateIdeas(t, analyzeGaps(t))
  {
    assert (types + [t])[..|types|] == types;
  }

  /** The finder loop of `analyze_domain`: each finder that is not skipped
      stores its gaps under its type and adds its ideas. */
  method RunFinders(analysisType: Value, analyzeGaps: string -> Value,
                    generateIdeas: (string, Value) -> seq<Value>) returns (gaps: Entries, ideas: seq<Value>)
    ensures gaps == GapsFor(FindersRun(FinderTypes, analysisType), analyzeGaps)
    ensures ideas == IdeasFor(FindersRun(FinderTypes, analysisType), analyzeGaps, generateIdeas)
  {
    gaps, ideas := [], [];
    var i := 0;
    assert FinderTypes[..0] == [];
    while i < |FinderTypes|
      invariant 0 <= i <= |FinderTypes|
      invariant gaps == GapsFor(FindersRun(FinderTypes[..i], analysisType), analyzeGaps)
      invariant ideas == IdeasFor(FindersRun(FinderTypes[..i], analysisType), analyzeGaps, generateIdeas)
    {
      var finder := FinderTypes[i];
      ghost var run := FindersRun(FinderTypes[..i], analysisType);
      FindersRunStep(i, analysisType);
      if !Skipped(finder, analysisType) {
        assert !HasKey(gaps, finder) by {
          assert Keys(gaps) == run;
        }
        GapsForSnoc(run, finder, analyzeGaps);
        IdeasForSnoc(run, finder, analyzeGaps, generateIdeas);
        gaps := Store(gaps, finder, analyzeGaps(finder));
        ideas := ideas + generateIdeas(finder, analyzeGaps(finder));
      }
      i := i + 1;
    }
    Removal.WholePrefix(FinderTypes);
  }

  /** The finders run for the first two finder types, whatever the
      analysis type: evidence, then knowledge. */
  lemma FirstTwoFinders(analysisType: Value)
    ensures FindersRun(FinderTypes[..2], analysisType) == ["evidence", "knowledge"]
  {
    assert FinderTypes[..0] == [];
    FindersRunStep(0, analysisType);
    assert FindersRun(FinderTypes[..1], analysisType) == ["evidence"];
    FindersRunStep(1, analysisType);
  }

  /** A cross-domain analysis runs all four finders in order; any other
      runs the evidence and knowledge finders only. */
  lemma FinderSkipRule(analysisType: Value)
    ensures FindersRun(FinderTypes, analysisType)
            == if analysisType == Str("cross_domain") then FinderTypes else ["evidence", "knowledge"]
  {
    if analysisType == Str("cross_domain") {
      CrossDomainFinders(analysisType);
    } else {
      SingleDomainFinders(analysisType);
    }
  }

  lemma CrossDomainFinders(analysisType: Value)
    requires analysisType == Str("cross_domain")
    ensures FindersRun(FinderTypes, analysisType) == FinderTypes
  {
    NothingSkipped(FinderTypes, analysisType);
  }

  /** A cross-domain analysis skips no finder of any list. */
  lemma {:induction false} NothingSkipped(types: seq<string>, analysisType: Value)
    requires analysisType == Str("cross_domain")
    ensures FindersRun(types, analysisType) == types
  {
    if types != [] {
      var n := |types| - 1;
      NothingSkipped(types[..n], analysisType);
      assert types == types[..n] + [types[n]];
    }
  }

  lemma LastTwo(s: seq<string>)
    requires |s| == 4
    ensures s[..2] + [s[2]] + [s[3]] == s && s[..3] == s[..2] + [s[2]] && s[..4] == s
  {
  }

  lemma SingleDomainFinders(analysisType: Value)
    requires analysisType != Str("cross_domain")
    ensures FindersRun(FinderTypes, analysisType) == ["evidence", "knowledge"]
  {
    FirstTwoFinders(analysisType);
    FindersRunStep(2, analysisType);
    FindersRunStep(3, analysisType);
    LastTwo(FinderTypes);
  }

  /** The two messages of a successful `analyze_domain`. */
  function AnalysisMessages(gaps: Entries, ideas: seq<Value>): seq<string> {
    ["Generated " + NatToString(|ideas|) + " research ideas", "Analyzed " + NatToString(|gaps|) + " gap categories"]
  }

  /** `analyze_domain` reports four gap categories for a cross-domain
      analysis and two otherwise. */
  lemma GapCategoriesReported(analysisType: Value, analyzeGaps: string -> Value,
                              generateIdeas: (string, Value) -> seq<Value>)
    ensures var gaps := GapsFor(FindersRun(FinderTypes, analysisType), analyzeGaps);
            var ideas := IdeasFor(FindersRun(FinderTypes, analysisType), analyzeGaps, generateIdeas);
            AnalysisMessages(gaps, ideas)[1]
            == "Analyzed " + NatToString(if analysisType == Str("cross_domain") then 4 else 2) + " gap categories"
  {
    FinderSkipRule(analysisType);
  }
}
