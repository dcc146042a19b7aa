/** `autology_constructor/idea/workflow.py`: choosing the ontologies from a
    folder listing, the stage router of the main graph and the handlers
    that turn a sub-team's state into the updates of the workflow state.
    The folder listing is a parameter; loading an ontology is the identity
    on its path, as in the source. The graph wiring is not modelled. */
module Workflow {
  import opened Wrappers
  import opened Text
  import opened Values

  // ---------------------------------------------------------------------
  // .owl selection in create_workflow
  // ---------------------------------------------------------------------

  /** `[f for f in listing if f.endswith('.owl')]` */
  function OwlFiles(listing: seq<string>): (r: seq<string>)
    ensures forall f :: f in r <==> f in listing && EndsWith(f, ".owl")
  {
    if listing == [] then []
    else if EndsWith(listing[0], ".owl") then [listing[0]] + OwlFiles(listing[1..])
    else OwlFiles(listing[1..])
  }

  /** The position of the first `.owl` name of `listing` at or after `from`. */
  predicate FirstOwlFrom(listing: seq<string>, from: nat, i: int) {
    from <= i < |listing| && EndsWith(listing[i], ".owl")
    && forall k :: from <= k < i ==> !EndsWith(listing[k], ".owl")
  }

  /** The first `.owl` name at or after `from`, by position. */
  function FirstOwl(listing: seq<string>, from: nat): (r: Option<nat>)
    ensures r.Some? ==> FirstOwlFrom(listing, from, r.value)
    ensures r.None? ==> forall k :: from <= k < |listing| ==> !EndsWith(listing[k], ".owl")
    decreases |listing| - from
  {
    if from >= |listing| then None
    else if EndsWith(listing[from], ".owl") then Some(from)
    else FirstOwl(listing, from + 1)
  }

  /** The filtered list starts with the first `.owl` name and goes on with
      the filtered rest of the listing after it. */
  lemma {:induction false} OwlFilesFrom(listing: seq<string>, from: nat)
    requires from <= |listing|
    ensures OwlFiles(listing[from..]) == match FirstOwl(listing, from)
                                         case None => []
                                         case Some(i) => [listing[i]] + OwlFiles(listing[i + 1..])
    decreases |listing| - from
  {
    if from < |listing| {
      assert listing[from..][1..] == listing[from + 1..];
      if !EndsWith(listing[from], ".owl") {
        OwlFilesFrom(listing, from + 1);
      }
    }
  }

  /** `os.path.join(folder, name)` */
  function PathJoin(folder: string, name: string): string {
    if StartsWith(name, "/") then name
    else if folder == [] || EndsWith(folder, "/") then folder + name
    else folder + "/" + name
  }

  /** The ontologies the workflow analyses and the mode it runs in. */
  datatype Selection = Selection(source: string, target: Option<string>, analysisType: string)

  /** The `.owl` selection of `create_workflow`: `ValueError` when the
      listing holds none, single-domain analysis of the only one, and
      cross-domain analysis of the first two otherwise. */
  function SelectOntologies(folder: string, listing: seq<string>): (r: Result<Selection, PyError>)
    ensures r.Err? ==> r.error == ValueError
    ensures r.Ok? ==> (r.value.analysisType == "single_domain" <==> r.value.target.None?)
    ensures r.Ok? ==> r.value.analysisType in {"single_domain", "cross_domain"}
  {
    var owl := OwlFiles(listing);
    if owl == [] then Err(ValueError)
    else if |owl| == 1 then Ok(Selection(PathJoin(folder, owl[0]), None, "single_domain"))
    else Ok(Selection(PathJoin(folder, owl[0]), Some(PathJoin(folder, owl[1])), "cross_domain"))
  }

  /** The selection fails exactly when no name of the listing ends in
      `.owl`. */
  lemma SelectionFails(folder: string, listing: seq<string>)
    ensures SelectOntologies(folder, listing).Err? <==> forall f :: f in listing ==> !EndsWith(f, ".owl")
  {
    var owl := OwlFiles(listing);
    if owl != [] {
      assert owl[0] in owl;
    }
  }

  /** The source is the first `.owl` name in listing order; the target is
      the next `.owl` name after it, and there is none exactly when the
      analysis is single-domain. */
  lemma SelectionFirstTwo(folder: string, listing: seq<string>)
    requires SelectOntologies(folder, listing).Ok?
    ensures FirstOwl(listing, 0).Some?
    ensures SelectOntologies(folder, listing).value.source == PathJoin(folder, listing[FirstOwl(listing, 0).value])
    ensures SelectOntologies(folder, listing).value.target
            == match FirstOwl(listing, FirstOwl(listing, 0).value + 1)
               case None => None
               case Some(j) => Some(PathJoin(folder, listing[j]))
  {
    var owl := OwlFiles(listing);
    OwlFilesFrom(listing, 0);
    assert listing[0..] == listing;
    var i := FirstOwl(listing, 0).value;
    var rest := OwlFiles(listing[i + 1..]);
    assert owl == [listing[i]] + rest;
    OwlFilesFrom(listing, i + 1);
    match FirstOwl(listing, i + 1)
    case None =>
      assert |owl| == 1;
    case Some(j) =>
      assert owl[1] == listing[j];
  }

  // ---------------------------------------------------------------------
  // route_execution
  // ---------------------------------------------------------------------

  /** Whether a value can be a dict key; any other value makes a dict
      lookup raise `TypeError`. */
  predicate Hashable(v: Value) {
    match v
    case List(_) => false
    case Set(_) => false
    case Dict(_) => false
    case Tuple(items) => forall i :: 0 <= i < |items| ==> Hashable(items[i])
    case _ => true
  }

  /** The three stages `stage_map` knows. */
  const RoutedStages: set<string> := {"querying", "dreaming", "critiquing"}

  /** `route_execution`: pending query requests go to "query" whatever the
      stage; otherwise the stage picks the next team, and the end after a
      critique that needs no improvement. */
  function RouteExecution(state: Entries): (r: Result<string, PyError>)
    ensures r.Ok? ==> r.value in {"query", "dream", "critic", "end"}
    ensures r.Ok? <==> Truthy(Get(state, "query_requests", List([])))
                       || (HasKey(state, "stage") && Lookup(state, "stage").value.Str?
                           && Lookup(state, "stage").value.s in RoutedStages)
  {
    if Truthy(Get(state, "query_requests", List([]))) then Ok("query")
    else
      match Index(state, "stage")
      case Err(e) => Err(e)
      case Ok(stage) =>
        if stage == Str("querying") then Ok("dream")
        else if stage == Str("dreaming") then Ok("critic")
        else if stage == Str("critiquing") then
          Ok(if Truthy(Get(state, "needs_improvement", NoneV)) then "dream" else "end")
        else if Hashable(stage) then Err(KeyError(PyStr(stage)))
        else Err(TypeError)
  }

  /** Without pending requests: "querying" goes to the dream team,
      "dreaming" to the critic team, "critiquing" back to the dream team
      exactly when improvement is needed and to the end otherwise; a
      missing stage and any other string stage raise `KeyError`. */
  lemma StageTable(state: Entries)
    requires !Truthy(Get(state, "query_requests", List([])))
    ensures !HasKey(state, "stage") ==> RouteExecution(state) == Err(KeyError("stage"))
    ensures Lookup(state, "stage") == Some(Str("querying")) ==> RouteExecution(state) == Ok("dream")
    ensures Lookup(state, "stage") == Some(Str("dreaming")) ==> RouteExecution(state) == Ok("critic")
    ensures Lookup(state, "stage") == Some(Str("critiquing")) ==>
              (RouteExecution(state) == Ok("dream") <==> Truthy(Get(state, "needs_improvement", NoneV)))
              && (RouteExecution(state) == Ok("end") <==> !Truthy(Get(state, "needs_improvement", NoneV)))
    ensures forall s :: Lookup(state, "stage") == Some(Str(s)) && s !in RoutedStages ==>
              RouteExecution(state) == Err(KeyError(s))
  {
  }

  // ---------------------------------------------------------------------
  // handle_query_result
  // ---------------------------------------------------------------------

  /** The dict `handle_query_result` returns, one field per key; a key the
      source does not insert is `None`. */
  datatype QueryUpdates = QueryUpdates(
    status: Value, stage: Value, previousStage: Value, messages: seq<string>,
    ontologyAnalysis: Option<Value>, queryResults: Option<Value>, error: Option<Value>)

  /** `handle_query_result` */
  function QueryResult(state: Entries): (r: Result<QueryUpdates, PyError>)
    ensures !HasKey(state, "query_state") ==> r == Err(KeyError("query_state"))
    ensures HasKey(state, "query_state") && !Lookup(state, "query_state").value.Dict? ==> r == Err(AttributeError)
    ensures r.Ok? ==> r.value.previousStage == Get(state, "stage", NoneV)
  {
    match Index(state, "query_state")
    case Err(e) => Err(e)
    case Ok(qs) =>
      if !qs.Dict? then Err(AttributeError)
      else
        var query := qs.entries;
        var status := Get(query, "status", Str("error"));
        var previous := Get(state, "stage", NoneV);
        if Get(query, "status", NoneV) == Str("success") then
          match Index(state, "previous_stage")
          case Err(e) => Err(e)
          case Ok(stage) =>
            var results := Get(query, "results", Dict([]));
            match Member("ontology_analysis", results)
            case Err(e) => Err(e)
            case Ok(found) =>
              if !found then
                Ok(QueryUpdates(status, stage, previous, ["Query completed successfully"], None, Some(results), None))
              else if results.Dict? then
                Ok(QueryUpdates(status, stage, previous,
                                ["Successfully updated ontology analysis", "Query completed successfully"],
                                Some(Lookup(results.entries, "ontology_analysis").value), Some(results), None))
              else Err(TypeError)
        else
          var error := Get(query, "error", Str("Unknown error in query"));
          Ok(QueryUpdates(status, Str("error"), previous, ["Query failed: " + PyStr(error)], None, None, Some(error)))
  }

  /** A successful query returns to the previous stage, copies the results
      (and the ontology analysis among them, when there is one) and
      reports success last; no error is recorded. A success without a
      previous stage raises `KeyError`. */
  lemma QuerySucceeded(state: Entries)
    requires HasKey(state, "query_state") && Lookup(state, "query_state").value.Dict?
    requires Get(Lookup(state, "query_state").value.entries, "status", NoneV) == Str("success")
    requires Get(Lookup(state, "query_state").value.entries, "results", Dict([])).Dict?
    ensures !HasKey(state, "previous_stage") ==> QueryResult(state) == Err(KeyError("previous_stage"))
    ensures HasKey(state, "previous_stage") ==>
              var results := Get(Lookup(state, "query_state").value.entries, "results", Dict([]));
              var r := QueryResult(state);
              r.Ok?
              && r.value.status == Str("success")
              && Some(r.value.stage) == Lookup(state, "previous_stage")
              && r.value.queryResults == Some(results)
              && r.value.ontologyAnalysis == Lookup(results.entries, "ontology_analysis")
              && r.value.messages != [] && r.value.messages[|r.value.messages| - 1] == "Query completed successfully"
              && r.value.error.None?
  {
  }

  /** A failed query moves to stage "error", records the error (a default
      text when the team gave none) and one message naming it, and copies
      no results. */
  lemma QueryFailed(state: Entries)
    requires HasKey(state, "query_state") && Lookup(state, "query_state").value.Dict?
    requires Get(Lookup(state, "query_state").value.entries, "status", NoneV) != Str("success")
    ensures var query := Lookup(state, "query_state").value.entries;
            var error := Get(query, "error", Str("Unknown error in query"));
            var r := QueryResult(state);
            r.Ok?
            && r.value.status == Get(query, "status", Str("error"))
            && r.value.stage == Str("error")
            && r.value.error == Some(error)
            && r.value.messages == ["Query failed: " + PyStr(error)]
            && r.value.queryResults.None? && r.value.ontologyAnalysis.None?
  {
  }

  // ---------------------------------------------------------------------
  // handle_critic_result
  // ---------------------------------------------------------------------

  /** The dict `handle_critic_result` returns, one field per key. */
  datatype CriticUpdates = CriticUpdates(
    stage: string, previousStage: Value, status: Value, evaluations: Value, needsImprovement: Value,
    messages: Value, error: Value, researchIdeas: Value)

  /** `handle_critic_result`; a critic state that is not a dict has no
      `get`. */
  function CriticHandled(state: Entries): (r: Result<CriticUpdates, PyError>)
    ensures r.Ok? <==> Get(state, "critic_state", Dict([])).Dict?
    ensures r.Err? ==> r.error == AttributeError
  {
    var critic := Get(state, "critic_state", Dict([]));
    if !critic.Dict? then Err(AttributeError)
    else
      var c := critic.entries;
      var improve := Truthy(Get(c, "needs_improvement", NoneV));
      Ok(CriticUpdates(
        if improve then "dreaming" else "end",
        Get(state, "stage", NoneV),
        Get(c, "status", Str("success")),
        Get(c, "evaluations", List([])),
        Get(c, "needs_improvement", Bool(false)),
        Get(c, "messages", List([])),
        Get(c, "error", NoneV),
        if improve then Get(state, "research_ideas", List([])) else List([])))
  }

  /** The critic handler moves to "dreaming" exactly when the critic asks
      for improvement and to "end" otherwise, and keeps the research ideas
      only when improving. Neither stage leads where the name suggests:
      the router sends "dreaming" to the critic team and has no entry for
      "end". */
  lemma CriticDecides(state: Entries, next: Entries)
    requires Get(state, "critic_state", Dict([])).Dict?
    requires !Truthy(Get(next, "query_requests", List([])))
    requires Lookup(next, "stage") == Some(Str(CriticHandled(state).value.stage))
    ensures var c := Get(state, "critic_state", Dict([])).entries;
            var improve := Truthy(Get(c, "needs_improvement", NoneV));
            var r := CriticHandled(state).value;
            (r.stage == "dreaming" <==> improve)
            && r.researchIdeas == (if improve then Get(state, "research_ideas", List([])) else List([]))
            && r.needsImprovement == Get(c, "needs_improvement", Bool(false))
            && RouteExecution(next) == (if improve then Ok("critic") else Err(KeyError("end")))
  {
    StageTable(next);
  }
}
