/** `src/agents/builder_team/individual_extractor.py`: individual categories
    and individuals as stored examples, with the list logic of saving,
    loading and deleting them. */
module IndividualExtractor {
  import opened Wrappers
  import opened Removal
  import opened ExampleStore

  datatype IndividualCategory = IndividualCategory(name: string, description: string, examples: seq<Individual>)

  datatype Individual = Individual(name: string, category: IndividualCategory,
                                   parameters: map<string, string>, context: string)

  /** `IndividualCategory.__eq__`: categories are equal when their names
      are. */
  predicate SameCategory(a: IndividualCategory, b: IndividualCategory) {
    a.name == b.name
  }

  /** Pydantic equality of individuals, which compares the category field
      with `IndividualCategory.__eq__`. It is also the duplicate test of
      `save_instances_to_json`. */
  predicate SameIndividual(a: Individual, b: Individual) {
    a.name == b.name && SameCategory(a.category, b.category)
    && a.parameters == b.parameters && a.context == b.context
  }

  lemma CategoryEquality(a: IndividualCategory, b: IndividualCategory, c: IndividualCategory, d: string, xs: seq<Individual>)
    ensures SameCategory(a, a.(description := d, examples := xs))
    ensures SameCategory(a, b) ==> SameCategory(b, a)
    ensures SameCategory(a, b) && SameCategory(b, c) ==> SameCategory(a, c)
    ensures SameCategory(a, b) <==> a.name == b.name
  {
  }

  /** An element of the list given to the save function. */
  datatype Instance = CategoryItem(category: IndividualCategory) | IndividualItem(individual: Individual) | OtherItem

  /** The two JSON files; `None` is a file that is missing or empty. */
  datatype Files = Files(categories: Option<seq<IndividualCategory>>, individuals: Option<seq<Individual>>)

  predicate AllCategories(items: seq<Instance>) {
    forall i :: 0 <= i < |items| ==> items[i].CategoryItem?
  }

  predicate AllIndividuals(items: seq<Instance>) {
    forall i :: 0 <= i < |items| ==> items[i].IndividualItem?
  }

  function CategoriesOf(items: seq<Instance>): (r: seq<IndividualCategory>)
    requires AllCategories(items)
  {
    seq(|items|, i requires 0 <= i < |items| => items[i].category)
  }

  function IndividualsOf(items: seq<Instance>): (r: seq<Individual>)
    requires AllIndividuals(items)
  {
    seq(|items|, i requires 0 <= i < |items| => items[i].individual)
  }

  /** `save_instances_to_json`: the files after the call, or the error. */
  method SaveInstances(items: seq<Instance>, files: Files) returns (r: Result<Files, Failure>)
    ensures items == [] ==> r == Err(EmptyList)
    ensures items != [] && AllCategories(items) ==>
              var stored := files.categories.GetOr([]);
              r == Ok(files.(categories := Some(stored + Fresh(stored, CategoriesOf(items), SameCategory))))
    ensures items != [] && !AllCategories(items) && AllIndividuals(items) ==>
              var stored := files.individuals.GetOr([]);
              r == Ok(files.(individuals := Some(stored + Fresh(stored, IndividualsOf(items), SameIndividual))))
    ensures items != [] && !AllCategories(items) && !AllIndividuals(items) ==> r == Err(MixedTypes)
  {
    if items == [] {
      return Err(EmptyList);
    }
    if AllCategories(items) {
      var merged := MergeNew(files.categories.GetOr([]), CategoriesOf(items), SameCategory);
      return Ok(files.(categories := Some(merged)));
    } else if AllIndividuals(items) {
      var merged := MergeNew(files.individuals.GetOr([]), IndividualsOf(items), SameIndividual);
      return Ok(files.(individuals := Some(merged)));
    }
    return Err(MixedTypes);
  }

  /** A list of both kinds, or of neither, is refused. */
  lemma MixedListRefused(c: IndividualCategory, x: Individual)
    ensures !AllCategories([CategoryItem(c), IndividualItem(x)])
    ensures !AllIndividuals([CategoryItem(c), IndividualItem(x)])
    ensures !AllCategories([OtherItem]) && !AllIndividuals([OtherItem])
  {
    assert [CategoryItem(c), IndividualItem(x)][1].IndividualItem?;
    assert [CategoryItem(c), IndividualItem(x)][0].CategoryItem?;
    assert [OtherItem][0].OtherItem?;
  }

  // ---------------------------------------------------------------------
  // Loading

  /** The index of the first category equal to the individual's. */
  function Home(categories: seq<IndividualCategory>, x: Individual): Option<nat> {
    FirstEqual(categories, x.category, SameCategory)
  }

  function HomeIs(categories: seq<IndividualCategory>, k: nat): Individual -> bool {
    x => Home(categories, x) == Some(k)
  }

  function Homeless(categories: seq<IndividualCategory>): Individual -> bool {
    x => Home(categories, x).None?
  }

  /** Each category with the individuals whose first equal category it is
      appended to its examples, in input order. */
  function Linked(categories: seq<IndividualCategory>, individuals: seq<Individual>): (r: seq<IndividualCategory>)
    ensures |r| == |categories|
    ensures forall k :: 0 <= k < |categories| ==>
              r[k] == categories[k].(examples := categories[k].examples + Filter(individuals, HomeIs(categories, k)))
  {
    seq(|categories|, k requires 0 <= k < |categories| =>
      categories[k].(examples := categories[k].examples + Filter(individuals, HomeIs(categories, k))))
  }

  /** The association loop of `_load_instances_from_json`: each individual
      is appended to the examples of the first category with its category's
      name; the ones without such a category are returned (each is warned
      about). */
  method Associate(individuals: seq<Individual>, categories: seq<IndividualCategory>)
    returns (linked: seq<IndividualCategory>, unmatched: seq<Individual>)
    ensures linked == Linked(categories, individuals)
    ensures unmatched == Filter(individuals, Homeless(categories))
  {
    linked := categories;
    unmatched := [];
    LinkedNothing(categories);
    var i := 0;
    while i < |individuals|
      invariant 0 <= i <= |individuals|
      invariant linked == Linked(categories, individuals[..i])
      invariant unmatched == Filter(individuals[..i], Homeless(categories))
    {
      var x := individuals[i];
      ghost var before, missed := linked, unmatched;
      var found;
      linked, found := AttachIndividual(linked, categories, x);
      if !found {
        unmatched := unmatched + [x];
      }
      AssociateStep(categories, individuals, i, before, linked, found, missed, unmatched);
      i := i + 1;
    }
    WholePrefix(individuals);
  }

  /** The inner loop: append `x` to the examples of the first category with
      its category's name, reporting whether there was one. Only examples
      change, so the categories as loaded are searched. */
  method AttachIndividual(linked: seq<IndividualCategory>, categories: seq<IndividualCategory>, x: Individual)
    returns (after: seq<IndividualCategory>, found: bool)
    requires |linked| == |categories|
    ensures found <==> Home(categories, x).Some?
    ensures after == Attached(linked, categories, x)
  {
    var k := 0;
    while k < |categories| && !SameCategory(categories[k], x.category)
      invariant 0 <= k <= |categories|
      invariant forall m :: 0 <= m < k ==> !SameCategory(categories[m], x.category)
    {
      k := k + 1;
    }
    HomeSearch(categories, x, k);
    if k < |categories| {
      return linked[k := linked[k].(examples := linked[k].examples + [x])], true;
    }
    return linked, false;
  }

  /** `linked` with `x` appended to the examples of its first same-named
      category, if any. */
  function Attached(linked: seq<IndividualCategory>, categories: seq<IndividualCategory>, x: Individual)
    : seq<IndividualCategory>
    requires |linked| == |categories|
  {
    match Home(categories, x)
    case Some(k) => linked[k := linked[k].(examples := linked[k].examples + [x])]
    case None => linked
  }

  lemma LinkedNothing(categories: seq<IndividualCategory>)
    ensures Linked(categories, []) == categories
  {
    forall k | 0 <= k < |categories| ensures Linked(categories, [])[k] == categories[k] {
      assert categories[k].examples + [] == categories[k].examples;
    }
  }

  /** The outcome of the search loop over the categories. */
  lemma HomeSearch(categories: seq<IndividualCategory>, x: Individual, k: nat)
    requires k <= |categories|
    requires forall m :: 0 <= m < k ==> !SameCategory(categories[m], x.category)
    requires k < |categories| ==> SameCategory(categories[k], x.category)
    ensures Home(categories, x) == if k < |categories| then Some(k) else None
  {
    var r := Home(categories, x);
    if r.Some? {
      assert !(r.value < k) && !(k < r.value);
    }
  }

  /** One individual's effect on the categories. */
  lemma AssociateStep(categories: seq<IndividualCategory>, individuals: seq<Individual>, i: nat,
                      before: seq<IndividualCategory>, after: seq<IndividualCategory>, found: bool,
                      missed: seq<Individual>, unmatched: seq<Individual>)
    requires i < |individuals|
    requires before == Linked(categories, individuals[..i])
    requires found <==> Home(categories, individuals[i]).Some?
    requires |before| == |categories| && after == Attached(before, categories, individuals[i])
    requires missed == Filter(individuals[..i], Homeless(categories))
    requires unmatched == if found then missed else missed + [individuals[i]]
    ensures after == Linked(categories, individuals[..i + 1])
    ensures unmatched == Filter(individuals[..i + 1], Homeless(categories))
  {
    PrefixSnoc(individuals, i);
    FilterSnoc(individuals[..i], individuals[i], Homeless(categories));
    LinkedStep(categories, individuals[..i], individuals[i], before, after);
  }

  lemma LinkedStep(categories: seq<IndividualCategory>, done: seq<Individual>, x: Individual,
                   before: seq<IndividualCategory>, after: seq<IndividualCategory>)
    requires before == Linked(categories, done)
    requires |before| == |categories| && after == Attached(before, categories, x)
    ensures after == Linked(categories, done + [x])
  {
    forall k | 0 <= k < |categories|
      ensures after[k] == Linked(categories, done + [x])[k]
    {
      FilterSnoc(done, x, HomeIs(categories, k));
    }
  }

  datatype Loaded = Loaded(individuals: seq<Individual>, categories: seq<IndividualCategory>, warnings: seq<Individual>)

  /** `_load_instances_from_json`: reading a missing or empty file fails. */
  method LoadInstances(files: Files) returns (r: Result<Loaded, Failure>)
    ensures files.individuals.None? || files.categories.None? <==> r == Err(MissingFile)
    ensures r.Ok? ==> r.value.individuals == files.individuals.value
                      && r.value.categories == Linked(files.categories.value, files.individuals.value)
                      && |r.value.categories| == |files.categories.value|
                      && r.value.warnings == Filter(files.individuals.value, Homeless(files.categories.value))
  {
    if files.individuals.None? || files.categories.None? {
      return Err(MissingFile);
    }
    var linked, unmatched := Associate(files.individuals.value, files.categories.value);
    return Ok(Loaded(files.individuals.value, linked, unmatched));
  }

  /** Every individual either lands with some category or is warned about,
      never both. */
  lemma HomeOrWarning(categories: seq<IndividualCategory>, x: Individual)
    ensures Homeless(categories)(x) <==> forall k :: 0 <= k < |categories| ==> !HomeIs(categories, k)(x)
    ensures Homeless(categories)(x) <==> forall k :: 0 <= k < |categories| ==> categories[k].name != x.category.name
  {
    if !Homeless(categories)(x) {
      assert HomeIs(categories, Home(categories, x).value)(x);
    }
  }

  // ---------------------------------------------------------------------
  // Deleting

  datatype InstanceKind = CategoryKind | IndividualKind | OtherKind

  predicate CategoryNamed(c: IndividualCategory, n: string) {
    c.name == n
  }

  /** The individuals a name selects, honouring the truthy `category`,
      `parameters` and `context` filters. */
  function IndividualMatches(kw: Kwargs): (Individual, string) -> bool {
    (x: Individual, n: string) =>
      x.name == n
      && (Active(kw, "category") ==> x.category.name == kw.category)
      && (Active(kw, "parameters") ==> x.parameters == kw.parameters)
      && (Active(kw, "context") ==> x.context == kw.context)
  }

  /** `delete_instances_from_json`: the files after the call, or the error
      (in which case nothing is written). Categories lose only the first
      entry with each name; individuals lose every match. */
  method DeleteInstances(kind: InstanceKind, names: seq<string>, kw: Kwargs, files: Files)
    returns (r: Result<Files, Failure>)
    ensures names == [] ==> r == Err(EmptyList)
    ensures names != [] && kind == CategoryKind && kw.passed != {} ==> r == Err(ExtraFilters)
    ensures names != [] && kind == OtherKind ==> r == Err(UnknownKind)
    ensures names != [] && kind == CategoryKind && kw.passed == {} ==>
              r == match files.categories
                   case None => Err(MissingFile)
                   case Some(stored) =>
                     match DeleteFrom(stored, stored, names, CategoryNamed, true, SameCategory)
                     case Err(e) => Err(e)
                     case Ok(rest) => Ok(files.(categories := Some(rest)))
    ensures names != [] && kind == IndividualKind ==>
              r == match files.individuals
                   case None => Err(MissingFile)
                   case Some(stored) =>
                     match DeleteFrom(stored, stored, names, IndividualMatches(kw), false, SameIndividual)
                     case Err(e) => Err(e)
                     case Ok(rest) => Ok(files.(individuals := Some(rest)))
  {
    if names == [] {
      return Err(EmptyList);
    }
    if kind == CategoryKind {
      if kw.passed != {} {
        return Err(ExtraFilters);
      }
      if files.categories.None? {
        return Err(MissingFile);
      }
      var result := DeleteNamed(files.categories.value, names, CategoryNamed, true, SameCategory);
      match result {
        case Err(e) => return Err(e);
        case Ok(rest) => return Ok(files.(categories := Some(rest)));
      }
    } else if kind == IndividualKind {
      if files.individuals.None? {
        return Err(MissingFile);
      }
      var result := DeleteNamed(files.individuals.value, names, IndividualMatches(kw), false, SameIndividual);
      match result {
        case Err(e) => return Err(e);
        case Ok(rest) => return Ok(files.(individuals := Some(rest)));
      }
    }
    return Err(UnknownKind);
  }

  /** No two stored categories share a name. */
  predicate UniqueNames(stored: seq<IndividualCategory>) {
    forall i, j :: 0 <= i < j < |stored| ==> stored[i].name != stored[j].name
  }

  /** Deleting distinct category names from a store with unique names
      removes exactly the named categories, or fails on the first name
      that is not stored. */
  lemma DeleteCategoriesOutcome(stored: seq<IndividualCategory>, names: seq<string>)
    requires UniqueNames(stored) && Distinct(names)
    ensures DeleteFrom(stored, stored, names, CategoryNamed, true, SameCategory)
            == match FirstUnmatched(stored, names, CategoryNamed)
               case Some(n) => Err(NoMatch(n))
               case None => Ok(Reject(stored, AnyOf(CategoryNamed, names)))
  {
    forall n | n in names ensures |Filter(stored, Named(CategoryNamed, n))| <= 1 {
      FilterAtMostOne(stored, Named(CategoryNamed, n));
    }
    DeleteDistinct(stored, names, CategoryNamed, true, SameCategory);
  }

  /** With several categories of one name, a delete removes only the first
      of them. */
  lemma DeleteFirstCategoryOnly(stored: seq<IndividualCategory>, n: string, i: nat)
    requires i < |stored| && stored[i].name == n
    requires forall j :: 0 <= j < i ==> stored[j].name != n
    ensures DeleteFrom(stored, stored, [n], CategoryNamed, true, SameCategory) == Ok(stored[..i] + stored[i + 1..])
  {
    FilterFirstAt(stored, Named(CategoryNamed, n), i);
    assert Hits(stored, n, CategoryNamed, true) == [stored[i]];
    FirstCategoryAt(stored, n, i);
    RemoveEachOne(stored, stored[i], SameCategory);
    DeleteFromStep(stored, stored, [n], CategoryNamed, true, SameCategory);
    assert [n][1..] == [];
  }

  lemma FirstCategoryAt(stored: seq<IndividualCategory>, n: string, i: nat)
    requires i < |stored| && stored[i].name == n
    requires forall j :: 0 <= j < i ==> stored[j].name != n
    ensures FirstEqual(stored, stored[i], SameCategory) == Some(i)
  {
    var r := FirstEqual(stored, stored[i], SameCategory);
    assert SameCategory(stored[i], stored[i]);
    if r.Some? {
      assert !(r.value < i) && !(i < r.value);
    }
  }

  /** Deleting distinct names removes exactly the stored individuals that
      match one of them under the filters, or fails on the first name that
      matches nothing. */
  lemma DeleteIndividualsOutcome(stored: seq<Individual>, names: seq<string>, kw: Kwargs)
    requires Distinct(names)
    ensures DeleteFrom(stored, stored, names, IndividualMatches(kw), false, SameIndividual)
            == match FirstUnmatched(stored, names, IndividualMatches(kw))
               case Some(n) => Err(NoMatch(n))
               case None => Ok(Reject(stored, AnyOf(IndividualMatches(kw), names)))
  {
    DeleteDistinct(stored, names, IndividualMatches(kw), false, SameIndividual);
  }

  /** A name given twice fails once it has matched. */
  lemma DeleteIndividualNameTwice(stored: seq<Individual>, n: string, kw: Kwargs)
    requires Filter(stored, Named(IndividualMatches(kw), n)) != []
    ensures DeleteFrom(stored, stored, [n, n], IndividualMatches(kw), false, SameIndividual) == Err(NotInList)
  {
    RepeatedNameFails(stored, n, IndividualMatches(kw), false, SameIndividual);
  }

  /** Saving the same categories again writes the same list. */
  lemma SaveCategoriesTwice(stored: seq<IndividualCategory>, categories: seq<IndividualCategory>)
    ensures var once := stored + Fresh(stored, categories, SameCategory);
            once + Fresh(once, categories, SameCategory) == once
  {
    SaveTwice(stored, categories, SameCategory);
  }
}
