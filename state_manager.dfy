/** `autology_constructor/idea/state_manager.py`: the workflow state held
    as one dict and updated in place. The initial dict nests its entries
    under group keys ("Control", "Input", ...), while the methods read and
    write flat keys (`state["stage"]`, `state["messages"]`); the model keeps
    both as they are, so on a fresh manager those reads raise `KeyError`.
    Each operation returns the exception it raises, if any, and keeps the
    changes made before it. */
module StateManagement {
  import opened Wrappers
  import Removal
  import opened Values

  /** The state an operation leaves and the exception it raised. */
  datatype Outcome = Outcome(state: Entries, error: Option<PyError>)

  function ControlGroup(): Entries {
    [("stage", Str("querying")), ("previous_stage", NoneV), ("status", Str("initialized"))]
  }

  function InputGroup(): Entries {
    [("ontology", NoneV), ("multi_domain_ontology", NoneV), ("analysis_type", Str("single_domain"))]
  }

  function ContextGroup(): Entries {
    [("shared_context", Dict([])), ("ontology_analysis", Dict([])), ("research_ideas", List([])),
     ("current_idea", NoneV), ("idea_evaluations", List([])), ("gap_analysis", Dict([]))]
  }

  function QueryGroup(): Entries {
    [("current_query", NoneV), ("query_history", List([]))]
  }

  function ErrorGroup(): Entries {
    [("error", NoneV), ("needs_improvement", Bool(false))]
  }

  function SystemGroup(): Entries {
    [("messages", List([]))]
  }

  /** The dict `__init__` builds. */
  function InitialState(): Entries {
    [("Control", Dict(ControlGroup())), ("Input", Dict(InputGroup())), ("Context", Dict(ContextGroup())),
     ("Query Management", Dict(QueryGroup())), ("Error Handling", Dict(ErrorGroup())), ("System", Dict(SystemGroup()))]
  }

  /** A fresh state reports stage "querying" and status "initialized"
      under its "Control" group and analysis type "single_domain" under its
      "Input" group. */
  lemma InitialGroups()
    ensures Field(Lookup(InitialState(), "Control").value, "stage") == Some(Str("querying"))
    ensures Field(Lookup(InitialState(), "Control").value, "status") == Some(Str("initialized"))
    ensures Field(Lookup(InitialState(), "Input").value, "analysis_type") == Some(Str("single_domain"))
  {
    InitialOuter();
    ControlFields();
    InputFields();
  }

  lemma InitialOuter()
    ensures Lookup(InitialState(), "Control") == Some(Dict(ControlGroup()))
    ensures Lookup(InitialState(), "Input") == Some(Dict(InputGroup()))
  {
    var s := InitialState();
    assert s[0].0[0] != 'I';
    assert Lookup(s[1..], "Input") == Some(Dict(InputGroup()));
  }

  lemma ControlFields()
    ensures Lookup(ControlGroup(), "stage") == Some(Str("querying"))
    ensures Lookup(ControlGroup(), "status") == Some(Str("initialized"))
  {
    var control := ControlGroup();
    assert |control[0].0| != |"status"| && control[1].0[0] != 's';
    assert Lookup(control[2..], "status") == Some(Str("initialized"));
  }

  lemma InputFields()
    ensures Lookup(InputGroup(), "analysis_type") == Some(Str("single_domain"))
  {
    var input := InputGroup();
    assert input[0].0[0] != 'a' && input[1].0[0] != 'a';
    assert Lookup(input[2..], "analysis_type") == Some(Str("single_domain"));
  }

  /** No key starting with a lower-case letter is in a dict whose keys all
      start with a capital. */
  lemma {:induction false} CapitalisedKeys(d: Entries, k: string)
    requires forall i :: 0 <= i < |d| ==> d[i].0 != [] && 'A' <= d[i].0[0] <= 'Z'
    requires k != [] && 'a' <= k[0] <= 'z'
    ensures !HasKey(d, k)
  {
    forall i | 0 <= i < |d| ensures d[i].0 != k {
      assert 'A' <= d[i].0[0] <= 'Z';
    }
  }

  /** The keys of a fresh state are the capitalised group names, so none
      of the lower-case flat keys the methods read is there. */
  lemma InitialFlatKeysMissing(k: string)
    requires k != [] && 'a' <= k[0] <= 'z'
    ensures !HasKey(InitialState(), k)
  {
    var s := InitialState();
    assert forall i :: 0 <= i < |s| ==> s[i].0 != [] && 'A' <= s[i].0[0] <= 'Z';
    CapitalisedKeys(s, k);
  }

  // ---------------------------------------------------------------------
  // update_state
  // ---------------------------------------------------------------------

  /** `d.update(u)` */
  function DictUpdate(d: Entries, u: Entries): Entries
    decreases |u|
  {
    if u == [] then d else Store(DictUpdate(d, u[..|u| - 1]), u[|u| - 1].0, u[|u| - 1].1)
  }

  /** After `d.update(u)` a key looks up its value in `u` when it is there,
      and its old value otherwise. */
  lemma {:induction false} DictUpdateLookup(d: Entries, u: Entries, k: string)
    requires UniqueKeys(u)
    ensures Lookup(DictUpdate(d, u), k) == if HasKey(u, k) then Lookup(u, k) else Lookup(d, k)
    decreases |u|
  {
    if u != [] {
      var n := |u| - 1;
      var init := u[..n];
      assert u == init + [u[n]];
      assert UniqueKeys(init);
      DictUpdateLookup(d, init, k);
      StoreLookup(DictUpdate(d, init), u[n].0, u[n].1, k);
      LookupSnoc(init, u[n].0, u[n].1, k);
      if k == u[n].0 {
        assert !HasKey(init, k) by {
          forall i | 0 <= i < n ensures init[i].0 != k {
            assert init[i] == u[i];
          }
        }
      }
    }
  }

  /** One key of `update_state`: a dict merged into a dict already stored
      there, anything else stored over the old value. */
  function UpdateEntry(state: Entries, key: string, value: Value): Entries {
    if value.Dict? && HasKey(state, key) && Lookup(state, key).value.Dict? then
      Store(state, key, Dict(DictUpdate(Lookup(state, key).value.entries, value.entries)))
    else Store(state, key, value)
  }

  function UpdateAll(state: Entries, updates: Entries): Entries
    decreases |updates|
  {
    if updates == [] then state
    else
      var n := |updates| - 1;
      UpdateEntry(UpdateAll(state, updates[..n]), updates[n].0, updates[n].1)
  }

  /** `update_state` is a shallow merge: a key missing from the updates
      keeps its value; a dict update into a stored dict overwrites only its
      own sub-keys; any other update replaces the value. */
  lemma {:induction false} UpdateAllLookup(state: Entries, updates: Entries, k: string)
    requires UniqueKeys(updates)
    ensures Lookup(UpdateAll(state, updates), k) ==
              if !HasKey(updates, k) then Lookup(state, k)
              else
                var v := Lookup(updates, k).value;
                if v.Dict? && HasKey(state, k) && Lookup(state, k).value.Dict? then
                  Some(Dict(DictUpdate(Lookup(state, k).value.entries, v.entries)))
                else Some(v)
    decreases |updates|
  {
    if updates != [] {
      var n := |updates| - 1;
      var init := updates[..n];
      var key, value := updates[n].0, updates[n].1;
      assert updates == init + [(key, value)];
      assert UniqueKeys(init);
      assert !HasKey(init, key) by {
        forall i | 0 <= i < n ensures init[i].0 != key {
          assert init[i] == updates[i];
        }
      }
      var before := UpdateAll(state, init);
      UpdateAllLookup(state, init, k);
      UpdateAllLookup(state, init, key);
      LookupSnoc(init, key, value, k);
      if value.Dict? && HasKey(before, key) && Lookup(before, key).value.Dict? {
        StoreLookup(before, key, Dict(DictUpdate(Lookup(before, key).value.entries, value.entries)), k);
      } else {
        StoreLookup(before, key, value, k);
      }
    }
  }

  // ---------------------------------------------------------------------
  // handle_team_result
  // ---------------------------------------------------------------------

  const GapTypes: seq<string> := ["evidence_gaps", "knowledge_gaps", "methodology_gaps", "meta_science_gaps"]

  /** `state["gap_analysis"][gap_type].extend(items)` */
  function ExtendGap(state: Entries, gapType: string, items: Value): Result<Entries, PyError> {
    match Index(state, "gap_analysis")
    case Err(e) => Err(e)
    case Ok(analysis) =>
      if !analysis.Dict? then Err(TypeError)
      else match Index(analysis.entries, gapType)
        case Err(e) => Err(e)
        case Ok(gaps) =>
          if !gaps.List? then Err(AttributeError)
          else match Elements(items)
            case None => Err(TypeError)
            case Some(xs) => Ok(Store(state, "gap_analysis", Dict(Store(analysis.entries, gapType, List(gaps.items + xs)))))
  }

  /** The gap loop from the gap type `types[0]` on. */
  function Gaps(state: Entries, result: Entries, types: seq<string>): Outcome
    decreases |types|
  {
    if types == [] then Outcome(state, None)
    else if HasKey(result, types[0]) then
      match ExtendGap(state, types[0], Lookup(result, types[0]).value)
      case Err(e) => Outcome(state, Some(e))
      case Ok(s) => Gaps(s, result, types[1..])
    else Gaps(state, result, types[1..])
  }

  /** The "dream" branch: record the last new idea, then extend the gaps. */
  function DreamResult(state: Entries, result: Entries): Outcome {
    if Truthy(Get(result, "research_ideas", NoneV)) then
      match LastItem(Lookup(result, "research_ideas").value)
      case Err(e) => Outcome(state, Some(e))
      case Ok(idea) =>
        var s1 := Store(state, "current_idea", idea);
        match AppendAt(s1, "research_ideas", idea)
        case Err(e) => Outcome(s1, Some(e))
        case Ok(s2) => Gaps(s2, result, GapTypes)
    else Gaps(state, result, GapTypes)
  }

  /** The "critic" branch: record the evaluation, copy its improvement flag
      and attach it to the current idea. */
  function CriticResult(state: Entries, result: Entries): Outcome {
    if !Truthy(Get(result, "evaluation", NoneV)) then Outcome(state, None)
    else
      var evaluation := Lookup(result, "evaluation").value;
      match AppendAt(state, "idea_evaluations", evaluation)
      case Err(e) => Outcome(state, Some(e))
      case Ok(s1) =>
        if !evaluation.Dict? then Outcome(s1, Some(AttributeError))
        else
          var s2 := Store(s1, "needs_improvement", Get(evaluation.entries, "needs_improvement", Bool(false)));
          AttachEvaluation(s2, evaluation)
  }

  /** `if state["current_idea"]: state["current_idea"]["evaluation"] = evaluation` */
  function AttachEvaluation(state: Entries, evaluation: Value): Outcome {
    match Index(state, "current_idea")
    case Err(e) => Outcome(state, Some(e))
    case Ok(idea) =>
      if !Truthy(idea) then Outcome(state, None)
      else if idea.Dict? then Outcome(Store(state, "current_idea", Dict(Store(idea.entries, "evaluation", evaluation))), None)
      else Outcome(state, Some(TypeError))
  }

  function TeamResult(state: Entries, team: string, result: Entries): Outcome {
    if team == "dream" then DreamResult(state, result)
    else if team == "critic" then CriticResult(state, result)
    else Outcome(state, None)
  }

  /** The gap loop touches no key but "gap_analysis". */
  lemma {:induction false} GapsKeepOthers(state: Entries, result: Entries, types: seq<string>, k: string)
    requires k != "gap_analysis"
    ensures Lookup(Gaps(state, result, types).state, k) == Lookup(state, k)
    decreases |types|
  {
    if types != [] && HasKey(result, types[0]) {
      match ExtendGap(state, types[0], Lookup(result, types[0]).value)
      case Err(_) =>
      case Ok(s) =>
        var analysis := Lookup(state, "gap_analysis").value;
        var gaps := Lookup(analysis.entries, types[0]).value;
        var xs := Elements(Lookup(result, types[0]).value).value;
        StoreLookup(state, "gap_analysis", Dict(Store(analysis.entries, types[0], List(gaps.items + xs))), k);
        GapsKeepOthers(s, result, types[1..], k);
    } else if types != [] {
      GapsKeepOthers(state, result, types[1..], k);
    }
  }

  /** A dream result with ideas makes its last idea the current one and
      appends it to the stored ideas, when the stored ideas are a list. */
  lemma DreamRecordsLastIdea(state: Entries, result: Entries)
    requires HasKey(result, "research_ideas") && Lookup(result, "research_ideas").value.List?
    requires Lookup(result, "research_ideas").value.items != []
    requires HasKey(state, "research_ideas") && Lookup(state, "research_ideas").value.List?
    ensures var ideas := Lookup(result, "research_ideas").value.items;
            Lookup(DreamResult(state, result).state, "current_idea") == Some(ideas[|ideas| - 1])
    ensures var ideas := Lookup(result, "research_ideas").value.items;
            Lookup(DreamResult(state, result).state, "research_ideas")
            == Some(List(Lookup(state, "research_ideas").value.items + [ideas[|ideas| - 1]]))
  {
    var ideas := Lookup(result, "research_ideas").value.items;
    var last := ideas[|ideas| - 1];
    var s1 := Store(state, "current_idea", last);
    StoreLookup(state, "current_idea", last, "research_ideas");
    var stored := Lookup(state, "research_ideas").value.items;
    var s2 := Store(s1, "research_ideas", List(stored + [last]));
    assert Get(result, "research_ideas", NoneV) == List(ideas);
    assert LastItem(List(ideas)) == Ok(last);
    assert AppendAt(s1, "research_ideas", last) == Ok(s2);
    assert DreamResult(state, result) == Gaps(s2, result, GapTypes);
    StoreLookup(s1, "research_ideas", List(stored + [last]), "current_idea");
    StoreLookup(s1, "research_ideas", List(stored + [last]), "research_ideas");
    StoreLookup(state, "current_idea", last, "current_idea");
    assert Lookup(s1, "current_idea") == Some(last);
    assert Lookup(s2, "current_idea") == Some(last);
    GapsKeepOthers(s2, result, GapTypes, "current_idea");
    GapsKeepOthers(s2, result, GapTypes, "research_ideas");
  }

  /** The path a critic result with a non-empty dict evaluation takes,
      when the stored evaluations are a list. */
  lemma CriticPath(state: Entries, result: Entries)
    requires HasKey(result, "evaluation") && Lookup(result, "evaluation").value.Dict?
    requires Lookup(result, "evaluation").value.entries != []
    requires HasKey(state, "idea_evaluations") && Lookup(state, "idea_evaluations").value.List?
    ensures var evaluation := Lookup(result, "evaluation").value;
            var s1 := Store(state, "idea_evaluations", List(Lookup(state, "idea_evaluations").value.items + [evaluation]));
            var s2 := Store(s1, "needs_improvement", Get(evaluation.entries, "needs_improvement", Bool(false)));
            CriticResult(state, result) == AttachEvaluation(s2, evaluation)
  {
    var evaluation := Lookup(result, "evaluation").value;
    var flag := Get(evaluation.entries, "needs_improvement", Bool(false));
    var stored := Lookup(state, "idea_evaluations").value.items;
    var s1 := Store(state, "idea_evaluations", List(stored + [evaluation]));
    var s2 := Store(s1, "needs_improvement", flag);
    assert Get(result, "evaluation", NoneV) == evaluation;
    assert Truthy(evaluation);
    assert AppendAt(state, "idea_evaluations", evaluation) == Ok(s1);
  }

  /** A critic result with a dict evaluation appends it to the stored
      evaluations, sets the improvement flag from it (False by default) and
      attaches it to a current idea that is a non-empty dict; a falsy
      current idea is left as it is. */
  lemma CriticRecordsEvaluation(state: Entries, result: Entries)
    requires HasKey(result, "evaluation") && Lookup(result, "evaluation").value.Dict?
    requires Lookup(result, "evaluation").value.entries != []
    requires HasKey(state, "idea_evaluations") && Lookup(state, "idea_evaluations").value.List?
    requires HasKey(state, "current_idea")
    ensures Lookup(CriticResult(state, result).state, "idea_evaluations")
            == Some(List(Lookup(state, "idea_evaluations").value.items + [Lookup(result, "evaluation").value]))
    ensures Lookup(CriticResult(state, result).state, "needs_improvement")
            == Some(Get(Lookup(result, "evaluation").value.entries, "needs_improvement", Bool(false)))
    ensures var idea := Lookup(state, "current_idea").value;
            !Truthy(idea) ==> CriticResult(state, result).error.None? && Lookup(CriticResult(state, result).state, "current_idea") == Some(idea)
    ensures var idea := Lookup(state, "current_idea").value;
            Truthy(idea) && idea.Dict? ==>
              CriticResult(state, result).error.None?
              && Lookup(CriticResult(state, result).state, "current_idea")
                 == Some(Dict(Store(idea.entries, "evaluation", Lookup(result, "evaluation").value)))
  {
    var evaluation := Lookup(result, "evaluation").value;
    var flag := Get(evaluation.entries, "needs_improvement", Bool(false));
    var stored := Lookup(state, "idea_evaluations").value.items;
    var s1 := Store(state, "idea_evaluations", List(stored + [evaluation]));
    var s2 := Store(s1, "needs_improvement", flag);
    var idea := Lookup(state, "current_idea").value;
    CriticPath(state, result);
    StoreLookup(state, "idea_evaluations", List(stored + [evaluation]), "current_idea");
    StoreLookup(s1, "needs_improvement", flag, "current_idea");
    StoreLookup(state, "idea_evaluations", List(stored + [evaluation]), "idea_evaluations");
    StoreLookup(s1, "needs_improvement", flag, "idea_evaluations");
    StoreLookup(s1, "needs_improvement", flag, "needs_improvement");
    assert Index(s2, "current_idea") == Ok(idea);
    if Truthy(idea) && idea.Dict? {
      var entry := Dict(Store(idea.entries, "evaluation", evaluation));
      StoreLookup(s2, "current_idea", entry, "idea_evaluations");
      StoreLookup(s2, "current_idea", entry, "needs_improvement");
      StoreLookup(s2, "current_idea", entry, "current_idea");
    }
  }

  // ---------------------------------------------------------------------
  // handle_error, rollback_to_previous, add_message
  // ---------------------------------------------------------------------

  function ErrorResult(state: Entries, errorType: string, message: string, context: Entries): Outcome {
    match Index(state, "stage")
    case Err(e) => Outcome(state, Some(e))
    case Ok(stage) =>
      var info := Dict([("type", Str(errorType)), ("message", Str(message)), ("context", Dict(context)), ("stage", stage)]);
      var s1 := Store(state, "error", info);
      match AppendAt(s1, "messages", Str("Error in " + PyStr(stage) + ": " + message))
      case Err(e) => Outcome(s1, Some(e))
      case Ok(s2) => Outcome(s2, None)
  }

  function RollbackResult(state: Entries): Outcome {
    match Index(state, "previous_stage")
    case Err(e) => Outcome(state, Some(e))
    case Ok(previous) =>
      if !Truthy(previous) then Outcome(state, None)
      else
        var s1 := Store(state, "stage", previous);
        match AppendAt(s1, "messages", Str("Rolled back to " + PyStr(previous)))
        case Err(e) => Outcome(s1, Some(e))
        case Ok(s2) => Outcome(s2, None)
  }

  function MessageResult(state: Entries, message: string): Outcome {
    match AppendAt(state, "messages", Str(message))
    case Err(e) => Outcome(state, Some(e))
    case Ok(s) => Outcome(s, None)
  }

  /** `handle_error` records the error's type, message, context and the
      current stage, and appends exactly one message naming the stage. */
  lemma ErrorRecorded(state: Entries, errorType: string, message: string, context: Entries)
    requires HasKey(state, "stage")
    requires HasKey(state, "messages") && Lookup(state, "messages").value.List?
    ensures var stage := Lookup(state, "stage").value;
            var after := ErrorResult(state, errorType, message, context);
            after.error.None?
            && Lookup(after.state, "error") == Some(Dict([("type", Str(errorType)), ("message", Str(message)),
                                                          ("context", Dict(context)), ("stage", stage)]))
            && Lookup(after.state, "messages")
               == Some(List(Lookup(state, "messages").value.items + [Str("Error in " + PyStr(stage) + ": " + message)]))
  {
    var stage := Lookup(state, "stage").value;
    var info := Dict([("type", Str(errorType)), ("message", Str(message)), ("context", Dict(context)), ("stage", stage)]);
    var s1 := Store(state, "error", info);
    var line := Str("Error in " + PyStr(stage) + ": " + message);
    StoreLookup(state, "error", info, "messages");
    StoreLookup(state, "error", info, "error");
    var stored := Lookup(s1, "messages").value.items;
    StoreLookup(s1, "messages", List(stored + [line]), "error");
    StoreLookup(s1, "messages", List(stored + [line]), "messages");
  }

  /** Rollback moves to the previous stage and appends one message when a
      previous stage is set, and changes nothing otherwise. */
  lemma RollbackMoves(state: Entries)
    requires HasKey(state, "previous_stage")
    requires HasKey(state, "messages") && Lookup(state, "messages").value.List?
    ensures var previous := Lookup(state, "previous_stage").value;
            var after := RollbackResult(state);
            after.error.None?
            && (!Truthy(previous) ==> after.state == state)
            && (Truthy(previous) ==>
                  Lookup(after.state, "stage") == Some(previous)
                  && Lookup(after.state, "messages")
                     == Some(List(Lookup(state, "messages").value.items + [Str("Rolled back to " + PyStr(previous))])))
  {
    var previous := Lookup(state, "previous_stage").value;
    if Truthy(previous) {
      var s1 := Store(state, "stage", previous);
      var line := Str("Rolled back to " + PyStr(previous));
      StoreLookup(state, "stage", previous, "messages");
      StoreLookup(state, "stage", previous, "stage");
      var stored := Lookup(s1, "messages").value.items;
      StoreLookup(s1, "messages", List(stored + [line]), "stage");
      StoreLookup(s1, "messages", List(stored + [line]), "messages");
    }
  }

  /** `add_message` appends exactly the message, and fails only when there
      is no message list. */
  lemma MessageAppended(state: Entries, message: string)
    ensures var after := MessageResult(state, message);
            (HasKey(state, "messages") && Lookup(state, "messages").value.List? ==>
               after.error.None?
               && Lookup(after.state, "messages") == Some(List(Lookup(state, "messages").value.items + [Str(message)])))
            && (!HasKey(state, "messages") ==> after == Outcome(state, Some(KeyError("messages"))))
  {
    if HasKey(state, "messages") && Lookup(state, "messages").value.List? {
      StoreLookup(state, "messages", List(Lookup(state, "messages").value.items + [Str(message)]), "messages");
    }
  }

  /** On a fresh manager the flat reads fail: `handle_error` raises
      `KeyError('stage')`, rollback `KeyError('previous_stage')` and
      `add_message` `KeyError('messages')`, and none changes the state. */
  lemma FreshManagerReads(errorType: string, message: string, context: Entries)
    ensures ErrorResult(InitialState(), errorType, message, context) == Outcome(InitialState(), Some(KeyError("stage")))
    ensures RollbackResult(InitialState()) == Outcome(InitialState(), Some(KeyError("previous_stage")))
    ensures MessageResult(InitialState(), message) == Outcome(InitialState(), Some(KeyError("messages")))
  {
    var s := InitialState();
    InitialFlatKeysMissing("stage");
    InitialFlatKeysMissing("previous_stage");
    InitialFlatKeysMissing("messages");
    FlatReadsFail(s, errorType, message, context);
  }

  lemma FlatReadsFail(state: Entries, errorType: string, message: string, context: Entries)
    requires !HasKey(state, "stage") && !HasKey(state, "previous_stage") && !HasKey(state, "messages")
    ensures ErrorResult(state, errorType, message, context) == Outcome(state, Some(KeyError("stage")))
    ensures RollbackResult(state) == Outcome(state, Some(KeyError("previous_stage")))
    ensures MessageResult(state, message) == Outcome(state, Some(KeyError("messages")))
  {
  }

  // ---------------------------------------------------------------------
  // The manager
  // ---------------------------------------------------------------------

  class StateManager {
    var state: Entries

    constructor()
      ensures state == InitialState()
    {
      state := InitialState();
    }

    /** `update_state` */
    method UpdateState(updates: Entries)
      modifies this
      ensures state == UpdateAll(old(state), updates)
    {
      var i := 0;
      while i < |updates|
        invariant 0 <= i <= |updates|
        invariant state == UpdateAll(old(state), updates[..i])
      {
        var key, value := updates[i].0, updates[i].1;
        Removal.PrefixOfPrefix(updates, i);
        if value.Dict? && HasKey(state, key) && Lookup(state, key).value.Dict? {
          var merged := DictUpdate(Lookup(state, key).value.entries, value.entries);
          state := Store(state, key, Dict(merged));
        } else {
          state := Store(state, key, value);
        }
        i := i + 1;
      }
      Removal.WholePrefix(updates);
    }

    /** The gap loop of `handle_team_result`. */
    method ExtendGaps(result: Entries) returns (error: Option<PyError>)
      modifies this
      ensures Outcome(state, error) == Gaps(old(state), result, GapTypes)
    {
      var i := 0;
      while i < |GapTypes|
        invariant 0 <= i <= |GapTypes|
        invariant Gaps(old(state), result, GapTypes) == Gaps(state, result, GapTypes[i..])
      {
        var gapType := GapTypes[i];
        assert GapTypes[i..][1..] == GapTypes[i + 1..];
        if HasKey(result, gapType) {
          var extended := ExtendGap(state, gapType, Lookup(result, gapType).value);
          if extended.Err? {
            return Some(extended.error);
          }
          state := extended.value;
        }
        i := i + 1;
      }
      return None;
    }

    /** `handle_team_result` */
    method HandleTeamResult(team: string, result: Entries) returns (error: Option<PyError>)
      modifies this
      ensures Outcome(state, error) == TeamResult(old(state), team, result)
    {
      if team == "dream" {
        if Truthy(Get(result, "research_ideas", NoneV)) {
          var last := LastItem(Lookup(result, "research_ideas").value);
          if last.Err? {
            return Some(last.error);
          }
          var idea := last.value;
          state := Store(state, "current_idea", idea);
          var appended := AppendAt(state, "research_ideas", idea);
          if appended.Err? {
            return Some(appended.error);
          }
          state := appended.value;
        }
        error := ExtendGaps(result);
      } else if team == "critic" {
        error := None;
        if Truthy(Get(result, "evaluation", NoneV)) {
          var evaluation := Lookup(result, "evaluation").value;
          var appended := AppendAt(state, "idea_evaluations", evaluation);
          if appended.Err? {
            return Some(appended.error);
          }
          state := appended.value;
          if !evaluation.Dict? {
            return Some(AttributeError);
          }
          state := Store(state, "needs_improvement", Get(evaluation.entries, "needs_improvement", Bool(false)));
          var current := Index(state, "current_idea");
          if current.Err? {
            return Some(current.error);
          }
          var idea := current.value;
          if Truthy(idea) {
            if !idea.Dict? {
              return Some(TypeError);
            }
            state := Store(state, "current_idea", Dict(Store(idea.entries, "evaluation", evaluation)));
          }
        }
      } else {
        error := None;
      }
    }

    /** `handle_error`; the exception is given by its type name and its
        message. */
    method HandleError(errorType: string, message: string, context: Entries) returns (error: Option<PyError>)
      modifies this
      ensures Outcome(state, error) == ErrorResult(old(state), errorType, message, context)
    {
      var stage := Index(state, "stage");
      if stage.Err? {
        return Some(stage.error);
      }
      var info := Dict([("type", Str(errorType)), ("message", Str(message)), ("context", Dict(context)), ("stage", stage.value)]);
      state := Store(state, "error", info);
      var appended := AppendAt(state, "messages", Str("Error in " + PyStr(stage.value) + ": " + message));
      if appended.Err? {
        return Some(appended.error);
      }
      state := appended.value;
      return None;
    }

    /** `rollback_to_previous` */
    method RollbackToPrevious() returns (error: Option<PyError>)
      modifies this
      ensures Outcome(state, error) == RollbackResult(old(state))
    {
      var previous := Index(state, "previous_stage");
      if previous.Err? {
        return Some(previous.error);
      }
      if Truthy(previous.value) {
        state := Store(state, "stage", previous.value);
        var appended := AppendAt(state, "messages", Str("Rolled back to " + PyStr(previous.value)));
        if appended.Err? {
          return Some(appended.error);
        }
        state := appended.value;
      }
      return None;
    }

    /** `add_message` */
    method AddMessage(message: string) returns (error: Option<PyError>)
      modifies this
      ensures Outcome(state, error) == MessageResult(old(state), message)
    {
      var appended := AppendAt(state, "messages", Str(message));
      if appended.Err? {
        return Some(appended.error);
      }
      state := appended.value;
      return None;
    }
  }
}
