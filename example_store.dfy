/** The list logic shared by the three builder-team example stores
    (`class_extractor.py`, `individual_extractor.py`, `concept_extractor.py`):
    merging new records into the stored list with a record-specific
    duplicate test, and deleting records by name. The JSON file is a
    parameter: `None` stands for a file that is missing or has size zero. */
module ExampleStore {
  import opened Wrappers
  import opened Removal

  /** The exceptions the stores raise, by cause. */
  datatype Failure =
    | EmptyList        // ValueError: empty record or name list
    | MixedTypes       // TypeError: records of the wrong or of mixed types
    | ExtraFilters     // ValueError: keyword filters given for categories
    | UnknownKind      // ValueError: neither `Individual` nor `IndividualCategory`
    | MissingFile      // FileNotFoundError: no file, or an empty one
    | NotInList        // ValueError from `list.remove`: nothing equal is left
    | NoMatch(name: string)  // ValueError: a requested name matched nothing

  // ---------------------------------------------------------------------
  // Saving

  /** `y` is a duplicate of some stored record. */
  predicate Duplicate<T(!new)>(existing: seq<T>, y: T, same: (T, T) -> bool) {
    exists k :: 0 <= k < |existing| && same(existing[k], y)
  }

  function NotDuplicate<T(!new)>(existing: seq<T>, same: (T, T) -> bool): T -> bool {
    y => !Duplicate(existing, y, same)
  }

  /** The new records that are not duplicates of stored ones, in input
      order. New records are not compared with each other. */
  function Fresh<T(!new)>(existing: seq<T>, incoming: seq<T>, same: (T, T) -> bool): seq<T> {
    Filter(incoming, NotDuplicate(existing, same))
  }

  /** The duplicate-flag loop of the `save_*_to_json` functions: the stored
      list, unchanged and in order, followed by the fresh new records. */
  method MergeNew<T(!new)>(existing: seq<T>, incoming: seq<T>, same: (T, T) -> bool)
    returns (merged: seq<T>)
    ensures merged == existing + Fresh(existing, incoming, same)
  {
    merged := existing;
    var i := 0;
    while i < |incoming|
      invariant 0 <= i <= |incoming|
      invariant merged == existing + Fresh(existing, incoming[..i], same)
    {
      var candidate := incoming[i];
      var isDuplicate := false;
      var j := 0;
      while j < |existing| && !isDuplicate
        invariant 0 <= j <= |existing|
        invariant isDuplicate <==> exists k :: 0 <= k < j && same(existing[k], candidate)
      {
        if same(existing[j], candidate) {
          isDuplicate := true;
        }
        j := j + 1;
      }
      if !isDuplicate {
        merged := merged + [candidate];
      }
      FilterSnoc(incoming[..i], candidate, NotDuplicate(existing, same));
      assert incoming[..i + 1] == incoming[..i] + [candidate];
      i := i + 1;
    }
    WholePrefix(incoming);
  }

  /** A new record is kept exactly when it duplicates no stored record. */
  lemma FreshMembers<T(!new)>(existing: seq<T>, incoming: seq<T>, same: (T, T) -> bool, y: T)
    ensures y in Fresh(existing, incoming, same) <==> y in incoming && !Duplicate(existing, y, same)
  {
    if y in Fresh(existing, incoming, same) {
      FilterMember(incoming, NotDuplicate(existing, same), y);
    } else if y in incoming && !Duplicate(existing, y, same) {
      FilterContains(incoming, NotDuplicate(existing, same), y);
    }
  }

  /** Saving the same records a second time leaves the stored list as the
      first save wrote it. */
  lemma SaveTwice<T(!new)>(existing: seq<T>, incoming: seq<T>, same: (T, T) -> bool)
    requires Reflexive(same)
    ensures var once := existing + Fresh(existing, incoming, same);
            once + Fresh(once, incoming, same) == once
  {
    var once := existing + Fresh(existing, incoming, same);
    forall y | y in incoming ensures Duplicate(once, y, same) {
      FreshMembers(existing, incoming, same, y);
      if !Duplicate(existing, y, same) {
        var k :| 0 <= k < |incoming| && incoming[k] == y;
        var f :| 0 <= f < |Fresh(existing, incoming, same)| && Fresh(existing, incoming, same)[f] == y;
        assert once[|existing| + f] == y && same(y, y);
      } else {
        var k :| 0 <= k < |existing| && same(existing[k], y);
        assert once[k] == existing[k];
      }
    }
    FilterNone(incoming, NotDuplicate(once, same));
  }

  /** With nothing stored, every new record is kept, repeats included. */
  lemma {:induction false} NothingStored<T(!new)>(incoming: seq<T>, same: (T, T) -> bool)
    ensures Fresh([], incoming, same) == incoming
  {
    if incoming != [] {
      NothingStored(incoming[1..], same);
      assert incoming == [incoming[0]] + incoming[1..];
    }
  }

  // ---------------------------------------------------------------------
  // Deleting

  /** The keyword arguments of a delete call: the keys passed, and the value
      passed for each filter (an absent or falsy value reads as empty). */
  datatype Kwargs = Kwargs(passed: set<string>, category: string, parameters: map<string, string>,
                           properties: map<string, string>, context: string)

  /** `'key' in kwargs and kwargs['key']` */
  predicate Active(kw: Kwargs, key: string) {
    key in kw.passed &&
    match key
    case "category" => kw.category != []
    case "parameters" => kw.parameters != map[]
    case "properties" => kw.properties != map[]
    case "context" => kw.context != []
    case _ => false
  }

  function Named<T(!new)>(matches: (T, string) -> bool, name: string): T -> bool {
    x => matches(x, name)
  }

  /** The first element, if any. */
  function Take1<T>(s: seq<T>): (r: seq<T>)
    ensures |r| <= 1 && (r == [] <==> s == [])
    ensures s != [] ==> r == s[..1]
  {
    if s == [] then [] else [s[0]]
  }

  /** The stored records a name selects: all of them, or only the first
      (categories). */
  function Hits<T(!new)>(existing: seq<T>, name: string, matches: (T, string) -> bool, firstOnly: bool): seq<T> {
    var all := Filter(existing, Named(matches, name));
    if firstOnly then Take1(all) else all
  }

  /** The deletion loop of the `delete_*_from_json` functions: per name, the
      selected records (always taken from the list as loaded) are removed
      one by one from what remains; a failed removal or an unmatched name
      aborts the whole call before anything is written. */
  function DeleteFrom<T(!new)>(existing: seq<T>, remaining: seq<T>, names: seq<string>,
                               matches: (T, string) -> bool, firstOnly: bool, eq: (T, T) -> bool): Result<seq<T>, Failure>
    decreases |names|
  {
    if names == [] then Ok(remaining)
    else
      var hits := Hits(existing, names[0], matches, firstOnly);
      match RemoveEach(remaining, hits, eq)
      case None => Err(NotInList)
      case Some(rest) =>
        if hits == [] then Err(NoMatch(names[0]))
        else DeleteFrom(existing, rest, names[1..], matches, firstOnly, eq)
  }

  /** One round of `DeleteFrom`. */
  lemma DeleteFromStep<T(!new)>(existing: seq<T>, remaining: seq<T>, names: seq<string>,
                                matches: (T, string) -> bool, firstOnly: bool, eq: (T, T) -> bool)
    requires names != []
    ensures var hits := Hits(existing, names[0], matches, firstOnly);
            DeleteFrom(existing, remaining, names, matches, firstOnly, eq)
            == match RemoveEach(remaining, hits, eq)
               case None => Err(NotInList)
               case Some(rest) =>
                 if hits == [] then Err(NoMatch(names[0]))
                 else DeleteFrom(existing, rest, names[1..], matches, firstOnly, eq)
  {
  }

  /** A round ends the whole call when the name selects nothing
      (`NoMatch`) or when a selected record is no longer among the remaining
      ones (`list.remove`'s `ValueError`); the failed removal comes first. */
  lemma RoundFailures<T(!new)>(existing: seq<T>, remaining: seq<T>, names: seq<string>,
                               matches: (T, string) -> bool, firstOnly: bool, eq: (T, T) -> bool)
    requires names != []
    ensures Hits(existing, names[0], matches, firstOnly) == [] ==>
              DeleteFrom(existing, remaining, names, matches, firstOnly, eq) == Err(NoMatch(names[0]))
    ensures RemoveEach(remaining, Hits(existing, names[0], matches, firstOnly), eq).None? ==>
              DeleteFrom(existing, remaining, names, matches, firstOnly, eq) == Err(NotInList)
  {
    DeleteFromStep(existing, remaining, names, matches, firstOnly, eq);
  }

  /** The selection loop over the stored records, stopping at the first hit
      when `firstOnly`. */
  method SelectHits<T(!new)>(existing: seq<T>, name: string, matches: (T, string) -> bool, firstOnly: bool)
    returns (hits: seq<T>)
    ensures hits == Hits(existing, name, matches, firstOnly)
  {
    hits := [];
    var found := false;
    var j := 0;
    while j < |existing| && !(firstOnly && found)
      invariant 0 <= j <= |existing|
      invariant var sofar := Filter(existing[..j], Named(matches, name));
                hits == (if firstOnly then Take1(sofar) else sofar) && (found <==> sofar != [])
    {
      FilterSnoc(existing[..j], existing[j], Named(matches, name));
      if matches(existing[j], name) {
        hits := hits + [existing[j]];
        found := true;
      }
      PrefixSnoc(existing, j);
      j := j + 1;
    }
    FilterAppend(existing[..j], existing[j..], Named(matches, name));
    SplitJoin(existing, j);
  }

  /** `for x in hits: remaining.remove(x)`; `None` is the ValueError. */
  method RemoveAll<T(!new)>(remaining: seq<T>, hits: seq<T>, eq: (T, T) -> bool)
    returns (r: Option<seq<T>>)
    ensures r == RemoveEach(remaining, hits, eq)
  {
    var rest := remaining;
    var k := 0;
    while k < |hits|
      invariant 0 <= k <= |hits|
      invariant RemoveEach(remaining, hits, eq) == RemoveEach(rest, hits[k..], eq)
    {
      assert hits[k..][0] == hits[k] && hits[k..][1..] == hits[k + 1..];
      match RemoveFirst(rest, hits[k], eq) {
        case None => return None;
        case Some(next) => rest := next;
      }
      k := k + 1;
    }
    return Some(rest);
  }

  method DeleteNamed<T(!new)>(existing: seq<T>, names: seq<string>, matches: (T, string) -> bool,
                              firstOnly: bool, eq: (T, T) -> bool)
    returns (r: Result<seq<T>, Failure>)
    ensures r == DeleteFrom(existing, existing, names, matches, firstOnly, eq)
  {
    var remaining := existing;
    var i := 0;
    while i < |names|
      invariant 0 <= i <= |names|
      invariant DeleteFrom(existing, existing, names, matches, firstOnly, eq)
                == DeleteFrom(existing, remaining, names[i..], matches, firstOnly, eq)
    {
      assert names[i..][0] == names[i] && names[i..][1..] == names[i + 1..];
      DeleteFromStep(existing, remaining, names[i..], matches, firstOnly, eq);
      var hits := SelectHits(existing, names[i], matches, firstOnly);
      var removed := RemoveAll(remaining, hits, eq);
      if removed.None? {
        return Err(NotInList);
      }
      if hits == [] {
        return Err(NoMatch(names[i]));
      }
      remaining := removed.value;
      i := i + 1;
    }
    return Ok(remaining);
  }

  // ---------------------------------------------------------------------
  // What a delete removes

  /** Equal records (by the store's equality) are selected by the same
      names. */
  ghost predicate EqRespected<T(!new)>(matches: (T, string) -> bool, eq: (T, T) -> bool) {
    forall a, b, n :: eq(a, b) ==> (matches(a, n) <==> matches(b, n))
  }

  /** A record is selected by its own name only. */
  ghost predicate NameKeyed<T(!new)>(matches: (T, string) -> bool) {
    forall x, n, m :: matches(x, n) && matches(x, m) ==> n == m
  }

  predicate Distinct(names: seq<string>) {
    forall i, j :: 0 <= i < j < |names| ==> names[i] != names[j]
  }

  ghost function AnyOf<T(!new)>(matches: (T, string) -> bool, names: seq<string>): T -> bool {
    x => exists n :: n in names && matches(x, n)
  }

  /** The first name that selects no stored record. */
  function FirstUnmatched<T(!new)>(existing: seq<T>, names: seq<string>, matches: (T, string) -> bool): (r: Option<string>)
    ensures r.None? <==> forall n :: n in names ==> Filter(existing, Named(matches, n)) != []
    ensures r.Some? ==> r.value in names && Filter(existing, Named(matches, r.value)) == []
  {
    if names == [] then None
    else if Filter(existing, Named(matches, names[0])) == [] then Some(names[0])
    else FirstUnmatched(existing, names[1..], matches)
  }

  lemma RejectNothing<T(!new)>(s: seq<T>, p: T -> bool)
    requires forall x :: x in s ==> !p(x)
    ensures Reject(s, p) == s
  {
    if s != [] {
      RejectNothing(s[1..], p);
      assert s == [s[0]] + s[1..];
    }
  }

  /** One name's step, once the names before it (`done`) are gone. */
  lemma DeleteOneName<T(!new)>(existing: seq<T>, done: seq<string>, n: string,
                               matches: (T, string) -> bool, firstOnly: bool, eq: (T, T) -> bool)
    requires Reflexive(eq) && EqRespected(matches, eq) && NameKeyed(matches) && n !in done
    requires firstOnly ==> |Filter(existing, Named(matches, n))| <= 1
    ensures var remaining := Reject(existing, AnyOf(matches, done));
            Hits(existing, n, matches, firstOnly) == Filter(existing, Named(matches, n))
            && RemoveEach(remaining, Hits(existing, n, matches, firstOnly), eq)
               == Some(Reject(existing, AnyOf(matches, done + [n])))
  {
    var remaining := Reject(existing, AnyOf(matches, done));
    var q := Named(matches, n);
    forall x | x in existing && q(x) ensures !AnyOf(matches, done)(x) {
      forall m | m in done ensures !matches(x, m) {
        assert m != n;
      }
    }
    FilterAfterReject(existing, AnyOf(matches, done), q);
    RemoveMatching(remaining, q, eq);
    RejectTwice(existing, AnyOf(matches, done), q, AnyOf(matches, done + [n]));
  }

  /** What deleting the distinct names `rest` from the records left after
      deleting `done` gives. */
  ghost function DeleteOutcome<T(!new)>(existing: seq<T>, done: seq<string>, rest: seq<string>,
                                  matches: (T, string) -> bool): Result<seq<T>, Failure> {
    match FirstUnmatched(existing, rest, matches)
    case Some(n) => Err(NoMatch(n))
    case None => Ok(Reject(existing, AnyOf(matches, done + rest)))
  }

  lemma {:induction false} DeleteDistinctFrom<T(!new)>(existing: seq<T>, done: seq<string>, rest: seq<string>,
                                                       matches: (T, string) -> bool, firstOnly: bool, eq: (T, T) -> bool)
    requires Reflexive(eq) && EqRespected(matches, eq) && NameKeyed(matches) && Distinct(done + rest)
    requires firstOnly ==> forall n :: n in rest ==> |Filter(existing, Named(matches, n))| <= 1
    ensures DeleteFrom(existing, Reject(existing, AnyOf(matches, done)), rest, matches, firstOnly, eq)
            == DeleteOutcome(existing, done, rest, matches)
    decreases |rest|
  {
    if rest == [] {
      assert done + rest == done;
    } else {
      var n := rest[0];
      assert n !in done by {
        forall i | 0 <= i < |done| ensures done[i] != n {
          assert (done + rest)[i] == done[i] && (done + rest)[|done|] == n;
        }
      }
      DeleteOneName(existing, done, n, matches, firstOnly, eq);
      if Filter(existing, Named(matches, n)) != [] {
        MoveFirst(done, rest);
        DeleteDistinctFrom(existing, done + [n], rest[1..], matches, firstOnly, eq);
      }
      DeleteOutcomeStep(existing, done, rest, matches, firstOnly, eq);
    }
  }

  /** The first name of `rest` either fails the delete or is removed before
      the rest. */
  lemma DeleteOutcomeStep<T(!new)>(existing: seq<T>, done: seq<string>, rest: seq<string>,
                                   matches: (T, string) -> bool, firstOnly: bool, eq: (T, T) -> bool)
    requires rest != []
    requires Hits(existing, rest[0], matches, firstOnly) == Filter(existing, Named(matches, rest[0]))
    requires RemoveEach(Reject(existing, AnyOf(matches, done)), Hits(existing, rest[0], matches, firstOnly), eq)
             == Some(Reject(existing, AnyOf(matches, done + [rest[0]])))
    requires Filter(existing, Named(matches, rest[0])) != [] ==>
               DeleteFrom(existing, Reject(existing, AnyOf(matches, done + [rest[0]])), rest[1..], matches, firstOnly, eq)
               == DeleteOutcome(existing, done + [rest[0]], rest[1..], matches)
    ensures DeleteFrom(existing, Reject(existing, AnyOf(matches, done)), rest, matches, firstOnly, eq)
            == DeleteOutcome(existing, done, rest, matches)
  {
    DeleteFromStep(existing, Reject(existing, AnyOf(matches, done)), rest, matches, firstOnly, eq);
    MoveFirst(done, rest);
  }

  lemma MoveFirst(done: seq<string>, rest: seq<string>)
    requires rest != []
    ensures (done + [rest[0]]) + rest[1..] == done + rest
  {
    assert rest == [rest[0]] + rest[1..];
  }

  /** With distinct names, a delete succeeds exactly when every name selects
      something, and then removes exactly the selected records, keeping the
      order of the rest; otherwise it fails on the first unmatched name. */
  lemma DeleteDistinct<T(!new)>(existing: seq<T>, names: seq<string>,
                                matches: (T, string) -> bool, firstOnly: bool, eq: (T, T) -> bool)
    requires Reflexive(eq) && EqRespected(matches, eq) && NameKeyed(matches) && Distinct(names)
    requires firstOnly ==> forall n :: n in names ==> |Filter(existing, Named(matches, n))| <= 1
    ensures DeleteFrom(existing, existing, names, matches, firstOnly, eq)
            == match FirstUnmatched(existing, names, matches)
               case Some(n) => Err(NoMatch(n))
               case None => Ok(Reject(existing, AnyOf(matches, names)))
  {
    RejectNothing(existing, AnyOf(matches, []));
    assert [] + names == names;
    DeleteDistinctFrom(existing, [], names, matches, firstOnly, eq);
  }

  /** Naming the same matched record twice fails: the second removal finds
      nothing equal left. */
  lemma RepeatedNameFails<T(!new)>(existing: seq<T>, n: string,
                                   matches: (T, string) -> bool, firstOnly: bool, eq: (T, T) -> bool)
    requires Reflexive(eq) && EqRespected(matches, eq) && NameKeyed(matches)
    requires firstOnly ==> |Filter(existing, Named(matches, n))| <= 1
    requires Filter(existing, Named(matches, n)) != []
    ensures DeleteFrom(existing, existing, [n, n], matches, firstOnly, eq) == Err(NotInList)
  {
    RejectNothing(existing, AnyOf(matches, []));
    DeleteOneName(existing, [], n, matches, firstOnly, eq);
    assert [] + [n] == [n];
    NothingLeftToRemove(existing, n, matches, eq);
    DeleteFromStep(existing, existing, [n, n], matches, firstOnly, eq);
    DeleteFromStep(existing, Reject(existing, AnyOf(matches, [n])), [n], matches, firstOnly, eq);
  }

  /** Once a name's records are gone, removing them again fails. */
  lemma NothingLeftToRemove<T(!new)>(existing: seq<T>, n: string, matches: (T, string) -> bool, eq: (T, T) -> bool)
    requires EqRespected(matches, eq) && NameKeyed(matches)
    requires Filter(existing, Named(matches, n)) != []
    ensures RemoveEach(Reject(existing, AnyOf(matches, [n])), Filter(existing, Named(matches, n)), eq) == None
  {
    var hits := Filter(existing, Named(matches, n));
    var remaining := Reject(existing, AnyOf(matches, [n]));
    FilterMember(existing, Named(matches, n), hits[0]);
    forall j | 0 <= j < |remaining| ensures !eq(remaining[j], hits[0]) {
      RejectMember(existing, AnyOf(matches, [n]), remaining[j]);
    }
    assert RemoveEach(remaining, hits, eq) == None;
  }
}
