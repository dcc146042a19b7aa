/** The state of the persistent ontology as the merge sees it, and the effect
    of each payload item on it, as functions on values. The class
    `OntologyMerge.OntologyStore` performs the same updates in place and is
    proved equal to these functions. */
module MergeModel {
  import opened Wrappers
  import opened Text
  import opened Payload

  /** A class expression: a named class, the `None` that a failed namespace
      lookup yields, or an owlready2 `Or`/`And` over named classes. */
  datatype ClassExpr = Named(name: string) | NoClass | Or(members: seq<string>) | And(members: seq<string>)

  /** `.some(...)` is existential, `.only(...)` universal. */
  datatype Quantifier = Existential | Universal

  datatype Restriction = Restriction(property: string, quantifier: Quantifier, filler: ClassExpr)

  /** An entry of a class's `is_a` list. */
  datatype Parent = NamedParent(name: string) | RestrictionParent(restriction: Restriction)

  /** A `GeneralClassAxiom` over a class expression, with one restriction
      in its `is_a`. */
  datatype GeneralAxiom = GeneralAxiom(domain: ClassExpr, restriction: Restriction)

  /** Everything the merge reads or writes. Information lists, `is_a` lists
      and value lists of a class that has none recorded read as empty. */
  datatype Store = Store(
    classes: set<string>,
    information: map<string, seq<string>>,
    isA: map<string, seq<Parent>>,
    hierarchyInformation: map<string, seq<string>>,
    disjoints: seq<(string, string)>,
    dataProperties: map<string, seq<string>>,
    dataValues: map<string, map<string, seq<string>>>,
    objectProperties: map<string, seq<string>>,
    generalAxioms: seq<GeneralAxiom>)

  function Info(s: Store, c: string): seq<string> {
    if c in s.information then s.information[c] else []
  }

  function Parents(s: Store, c: string): seq<Parent> {
    if c in s.isA then s.isA[c] else []
  }

  function HierarchyInfo(s: Store, c: string): seq<string> {
    if c in s.hierarchyInformation then s.hierarchyInformation[c] else []
  }

  function ValueRow(s: Store, c: string): map<string, seq<string>> {
    if c in s.dataValues then s.dataValues[c] else map[]
  }

  /** `getattr(owner_class, property, [])` */
  function ValuesOf(s: Store, c: string, p: string): seq<string> {
    var row := ValueRow(s, c);
    if p in row then row[p] else []
  }

  /** `_class_exists` */
  predicate ClassExists(s: Store, name: string) {
    name in s.classes
  }

  predicate NoDup<T(==)>(xs: seq<T>) {
    forall i, j :: 0 <= i < j < |xs| ==> xs[i] != xs[j]
  }

  lemma AppendNew<T>(xs: seq<T>, x: T)
    requires NoDup(xs) && x !in xs
    ensures NoDup(xs + [x])
  {
    var ys := xs + [x];
    forall i, j | 0 <= i < j < |ys| ensures ys[i] != ys[j] {
      if j == |xs| { assert ys[i] == xs[i]; }
    }
  }

  /** Every list of the map is free of duplicates. */
  ghost predicate AllNoDup(m: map<string, seq<string>>) {
    forall k :: k in m ==> NoDup(m[k])
  }

  lemma AllNoDupUpdate(m: map<string, seq<string>>, k: string, v: seq<string>)
    requires AllNoDup(m) && NoDup(v)
    ensures AllNoDup(m[k := v])
  {
  }

  /** No named parent occurs twice (restrictions may repeat). */
  predicate NamedOnce(ps: seq<Parent>) {
    forall i, j :: 0 <= i < j < |ps| && ps[i].NamedParent? ==> ps[i] != ps[j]
  }

  lemma NamedOnceAppend(ps: seq<Parent>, p: Parent)
    requires NamedOnce(ps) && (p.NamedParent? ==> p !in ps)
    ensures NamedOnce(ps + [p])
  {
    var qs := ps + [p];
    forall i, j | 0 <= i < j < |qs| && qs[i].NamedParent? ensures qs[i] != qs[j] {
      if j == |ps| { assert qs[i] == ps[i]; }
    }
  }

  /** Every class an expression names exists. */
  predicate ExprIn(e: ClassExpr, classes: set<string>) {
    match e
    case Named(n) => n in classes
    case NoClass => true
    case Or(ms) => forall m :: m in ms ==> m in classes
    case And(ms) => forall m :: m in ms ==> m in classes
  }

  predicate RestrictionIn(r: Restriction, classes: set<string>, properties: set<string>) {
    r.property in properties && ExprIn(r.filler, classes)
  }

  predicate ParentIn(p: Parent, classes: set<string>, properties: set<string>) {
    match p
    case NamedParent(n) => n in classes
    case RestrictionParent(r) => RestrictionIn(r, classes, properties)
  }

  /** The names a store's maps are keyed by all belong to existing classes. */
  ghost predicate KeysIn(s: Store) {
    && s.information.Keys <= s.classes
    && s.isA.Keys <= s.classes
    && s.hierarchyInformation.Keys <= s.classes
    && s.dataValues.Keys <= s.classes
  }

  /** Annotation and value lists hold no duplicates, and no class has the
      same named parent twice. */
  ghost predicate Unique(s: Store) {
    && AllNoDup(s.information)
    && AllNoDup(s.hierarchyInformation)
    && AllNoDup(s.dataProperties)
    && AllNoDup(s.objectProperties)
    && (forall c :: c in s.dataValues ==> AllNoDup(s.dataValues[c]))
    && (forall c :: c in s.isA ==> NamedOnce(s.isA[c]))
  }

  /** Every class and property a parent or an axiom mentions exists. */
  ghost predicate RefsIn(s: Store) {
    && (forall c, p :: c in s.isA && p in s.isA[c] ==> ParentIn(p, s.classes, s.objectProperties.Keys))
    && (forall d :: d in s.disjoints ==> d.0 in s.classes && d.1 in s.classes)
    && (forall a :: a in s.generalAxioms ==>
          ExprIn(a.domain, s.classes) && RestrictionIn(a.restriction, s.classes, s.objectProperties.Keys))
  }

  /** The invariant the merge keeps. */
  ghost predicate Wf(s: Store) {
    KeysIn(s) && Unique(s) && RefsIn(s)
  }

  lemma ExprInGrow(e: ClassExpr, a: set<string>, b: set<string>)
    requires ExprIn(e, a) && a <= b
    ensures ExprIn(e, b)
  {
  }

  /** References stay valid when only classes and properties are added. */
  lemma RefsGrow(s: Store, t: Store)
    requires RefsIn(s)
    requires t.isA == s.isA && t.disjoints == s.disjoints && t.generalAxioms == s.generalAxioms
    requires s.classes <= t.classes && s.objectProperties.Keys <= t.objectProperties.Keys
    ensures RefsIn(t)
  {
    forall c, p | c in t.isA && p in t.isA[c]
      ensures ParentIn(p, t.classes, t.objectProperties.Keys)
    {
      assert ParentIn(p, s.classes, s.objectProperties.Keys);
      if p.RestrictionParent? { ExprInGrow(p.restriction.filler, s.classes, t.classes); }
    }
    forall a | a in t.generalAxioms
      ensures ExprIn(a.domain, t.classes) && RestrictionIn(a.restriction, t.classes, t.objectProperties.Keys)
    {
      ExprInGrow(a.domain, s.classes, t.classes);
      ExprInGrow(a.restriction.filler, s.classes, t.classes);
    }
  }

  /** Replacing one class's `is_a` by a list of valid parents keeps references valid. */
  lemma RefsSetParents(s: Store, c: string, ps: seq<Parent>)
    requires RefsIn(s)
    requires forall p :: p in ps ==> ParentIn(p, s.classes, s.objectProperties.Keys)
    ensures RefsIn(s.(isA := s.isA[c := ps]))
  {
  }

  /** Each list of `m` is a prefix of the list under the same key in `n`. */
  ghost predicate Grows<T>(m: map<string, seq<T>>, n: map<string, seq<T>>) {
    forall k :: k in m ==> k in n && m[k] <= n[k]
  }

  lemma PrefixIn<T>(a: seq<T>, b: seq<T>, x: T)
    requires a <= b && x in a
    ensures x in b
  {
    var i :| 0 <= i < |a| && a[i] == x;
    assert b[i] == x;
  }

  lemma GrowsRefl<T>(m: map<string, seq<T>>)
    ensures Grows(m, m)
  {
  }

  lemma GrowsUpdate<T>(m: map<string, seq<T>>, k: string, v: seq<T>)
    requires k in m ==> m[k] <= v
    ensures Grows(m, m[k := v])
  {
  }

  /** `s` grows into `t`: nothing recorded in `s` is lost or reordered. */
  ghost predicate Extends(s: Store, t: Store) {
    && s.classes <= t.classes
    && Grows(s.information, t.information)
    && Grows(s.isA, t.isA)
    && Grows(s.hierarchyInformation, t.hierarchyInformation)
    && s.disjoints <= t.disjoints
    && Grows(s.dataProperties, t.dataProperties)
    && Grows(s.objectProperties, t.objectProperties)
    && (forall c :: c in s.dataValues ==> c in t.dataValues && Grows(s.dataValues[c], t.dataValues[c]))
    && s.generalAxioms <= t.generalAxioms
  }

  lemma PrefixTransitive<T>(a: seq<T>, b: seq<T>, c: seq<T>)
    requires a <= b && b <= c
    ensures a <= c
  {
    assert a == b[..|a|];
    assert b == c[..|b|];
    assert c[..|b|][..|a|] == c[..|a|];
  }

  lemma GrowsTransitive<T>(m: map<string, seq<T>>, n: map<string, seq<T>>, o: map<string, seq<T>>)
    requires Grows(m, n) && Grows(n, o)
    ensures Grows(m, o)
  {
    forall k | k in m ensures k in o && m[k] <= o[k] {
      PrefixTransitive(m[k], n[k], o[k]);
    }
  }

  /** What a class had as information, parents or values it keeps. */
  lemma ExtendsKeeps(s: Store, t: Store, c: string, p: string)
    requires Extends(s, t)
    ensures forall x :: x in Info(s, c) ==> x in Info(t, c)
    ensures forall x :: x in Parents(s, c) ==> x in Parents(t, c)
    ensures forall x :: x in ValuesOf(s, c, p) ==> x in ValuesOf(t, c, p)
  {
    forall x | x in Info(s, c) ensures x in Info(t, c) { PrefixIn(Info(s, c), Info(t, c), x); }
    forall x | x in Parents(s, c) ensures x in Parents(t, c) { PrefixIn(Parents(s, c), Parents(t, c), x); }
    forall x | x in ValuesOf(s, c, p) ensures x in ValuesOf(t, c, p) {
      PrefixIn(ValuesOf(s, c, p), ValuesOf(t, c, p), x);
    }
  }

  lemma ExtendsTransitive(s: Store, t: Store, u: Store)
    requires Extends(s, t) && Extends(t, u)
    ensures Extends(s, u)
  {
    GrowsTransitive(s.information, t.information, u.information);
    GrowsTransitive(s.isA, t.isA, u.isA);
    GrowsTransitive(s.hierarchyInformation, t.hierarchyInformation, u.hierarchyInformation);
    GrowsTransitive(s.dataProperties, t.dataProperties, u.dataProperties);
    GrowsTransitive(s.objectProperties, t.objectProperties, u.objectProperties);
    PrefixTransitive(s.disjoints, t.disjoints, u.disjoints);
    PrefixTransitive(s.generalAxioms, t.generalAxioms, u.generalAxioms);
    forall c | c in s.dataValues ensures c in u.dataValues && Grows(s.dataValues[c], u.dataValues[c]) {
      GrowsTransitive(s.dataValues[c], t.dataValues[c], u.dataValues[c]);
    }
  }

  // Frame lemmas: each replaces one part of a well-formed store.

  lemma AddClass(s: Store, c: string)
    requires Wf(s)
    ensures Wf(s.(classes := s.classes + {c})) && Extends(s, s.(classes := s.classes + {c}))
  {
    RefsGrow(s, s.(classes := s.classes + {c}));
  }

  lemma SetInformation(s: Store, c: string, v: seq<string>)
    requires Wf(s) && c in s.classes && NoDup(v) && Info(s, c) <= v
    ensures Wf(s.(information := s.information[c := v]))
    ensures Extends(s, s.(information := s.information[c := v]))
  {
    AllNoDupUpdate(s.information, c, v);
    GrowsUpdate(s.information, c, v);
  }

  lemma SetHierarchyInformation(s: Store, c: string, v: seq<string>)
    requires Wf(s) && c in s.classes && NoDup(v) && HierarchyInfo(s, c) <= v
    ensures Wf(s.(hierarchyInformation := s.hierarchyInformation[c := v]))
    ensures Extends(s, s.(hierarchyInformation := s.hierarchyInformation[c := v]))
  {
    AllNoDupUpdate(s.hierarchyInformation, c, v);
    GrowsUpdate(s.hierarchyInformation, c, v);
  }

  lemma SetParents(s: Store, c: string, ps: seq<Parent>)
    requires Wf(s) && c in s.classes && NamedOnce(ps) && Parents(s, c) <= ps
    requires forall p :: p in ps ==> ParentIn(p, s.classes, s.objectProperties.Keys)
    ensures Wf(s.(isA := s.isA[c := ps])) && Extends(s, s.(isA := s.isA[c := ps]))
  {
    RefsSetParents(s, c, ps);
    GrowsUpdate(s.isA, c, ps);
  }

  lemma SetDataProperty(s: Store, name: string, v: seq<string>)
    requires Wf(s) && NoDup(v) && (name in s.dataProperties ==> s.dataProperties[name] <= v)
    ensures Wf(s.(dataProperties := s.dataProperties[name := v]))
    ensures Extends(s, s.(dataProperties := s.dataProperties[name := v]))
  {
    AllNoDupUpdate(s.dataProperties, name, v);
    GrowsUpdate(s.dataProperties, name, v);
  }

  lemma SetObjectProperty(s: Store, name: string, v: seq<string>)
    requires Wf(s) && NoDup(v) && (name in s.objectProperties ==> s.objectProperties[name] <= v)
    ensures Wf(s.(objectProperties := s.objectProperties[name := v]))
    ensures Extends(s, s.(objectProperties := s.objectProperties[name := v]))
  {
    var t := s.(objectProperties := s.objectProperties[name := v]);
    AllNoDupUpdate(s.objectProperties, name, v);
    GrowsUpdate(s.objectProperties, name, v);
    RefsGrow(s, t);
  }

  lemma SetValues(s: Store, c: string, p: string, v: seq<string>)
    requires Wf(s) && c in s.classes && NoDup(v) && ValuesOf(s, c, p) <= v
    ensures Wf(s.(dataValues := s.dataValues[c := ValueRow(s, c)[p := v]]))
    ensures Extends(s, s.(dataValues := s.dataValues[c := ValueRow(s, c)[p := v]]))
  {
    var row := ValueRow(s, c);
    assert AllNoDup(row);
    AllNoDupUpdate(row, p, v);
    GrowsUpdate(row, p, v);
  }

  // ---------------------------------------------------------------------
  // Phase 1: entities

  /** One entity: a missing class is created (with its information as the
      only entry when there is one); an existing class gets the information
      appended when it is non-empty and not yet recorded. */
  function EntityStep(s: Store, e: Entity): Store {
    if e.name !in s.classes then
      var t := s.(classes := s.classes + {e.name});
      if HasText(e.information) then t.(information := t.information[e.name := [e.information.value]]) else t
    else if HasText(e.information) && e.information.value !in Info(s, e.name) then
      s.(information := s.information[e.name := Info(s, e.name) + [e.information.value]])
    else s
  }

  function EntitiesPhase(s: Store, es: seq<Entity>): Store {
    if es == [] then s else EntityStep(EntitiesPhase(s, es[..|es| - 1]), es[|es| - 1])
  }

  lemma EntityCreatedWf(s: Store, e: Entity)
    requires Wf(s) && e.name !in s.classes
    ensures Wf(EntityStep(s, e)) && Extends(s, EntityStep(s, e))
    ensures EntityStep(s, e).classes == s.classes + {e.name}
    ensures Info(EntityStep(s, e), e.name) == if HasText(e.information) then [e.information.value] else []
  {
    var t0 := s.(classes := s.classes + {e.name});
    AddClass(s, e.name);
    if HasText(e.information) {
      SetInformation(t0, e.name, [e.information.value]);
      ExtendsTransitive(s, t0, EntityStep(s, e));
    }
  }

  lemma EntityExistingWf(s: Store, e: Entity)
    requires Wf(s) && e.name in s.classes
    ensures Wf(EntityStep(s, e)) && Extends(s, EntityStep(s, e))
    ensures EntityStep(s, e).classes == s.classes + {e.name}
    ensures HasText(e.information) ==> e.information.value in Info(EntityStep(s, e), e.name)
  {
    if HasText(e.information) && e.information.value !in Info(s, e.name) {
      AppendNew(Info(s, e.name), e.information.value);
      SetInformation(s, e.name, Info(s, e.name) + [e.information.value]);
    }
  }

  /** One entity keeps the invariant: information lists stay free of
      duplicates. */
  lemma EntityStepWf(s: Store, e: Entity)
    requires Wf(s)
    ensures Wf(EntityStep(s, e)) && Extends(s, EntityStep(s, e))
    ensures EntityStep(s, e).classes == s.classes + {e.name}
    ensures HasText(e.information) ==> e.information.value in Info(EntityStep(s, e), e.name)
  {
    if e.name !in s.classes { EntityCreatedWf(s, e); } else { EntityExistingWf(s, e); }
  }

  /** The names of the payload's entities. */
  function EntityNames(es: seq<Entity>): set<string> {
    if es == [] then {} else EntityNames(es[..|es| - 1]) + {es[|es| - 1].name}
  }

  lemma {:induction false} EntitiesPhaseWf(s: Store, es: seq<Entity>)
    requires Wf(s)
    ensures Wf(EntitiesPhase(s, es)) && Extends(s, EntitiesPhase(s, es))
    ensures EntitiesPhase(s, es).classes == s.classes + EntityNames(es)
  {
    if es != [] {
      var init := es[..|es| - 1];
      var mid := EntitiesPhase(s, init);
      EntitiesPhaseWf(s, init);
      EntityStepWf(mid, es[|es| - 1]);
      ExtendsTransitive(s, mid, EntitiesPhase(s, es));
    }
  }

  /** After the entity phase every entity exists and every non-empty
      information text is recorded on its class. */
  ghost predicate EntitiesRecorded(s: Store, es: seq<Entity>) {
    forall e :: e in es ==> e.name in s.classes && (HasText(e.information) ==> e.information.value in Info(s, e.name))
  }

  lemma {:induction false} EntitiesPhaseRecords(s: Store, es: seq<Entity>)
    requires Wf(s)
    ensures EntitiesRecorded(EntitiesPhase(s, es), es)
  {
    if es != [] {
      var init := es[..|es| - 1];
      var last := es[|es| - 1];
      var mid := EntitiesPhase(s, init);
      var t := EntitiesPhase(s, es);
      EntitiesPhaseRecords(s, init);
      EntitiesPhaseWf(s, init);
      EntityStepWf(mid, last);
      forall e | e in es
        ensures e.name in t.classes
        ensures HasText(e.information) ==> e.information.value in Info(t, e.name)
      {
        if e != last {
          assert e in init;
          ExtendsKeeps(mid, t, e.name, "");
        }
      }
    }
  }

  /** An entity whose class exists and whose information is recorded or
      empty changes nothing. */
  lemma EntityStepStable(s: Store, e: Entity)
    requires e.name in s.classes && (HasText(e.information) ==> e.information.value in Info(s, e.name))
    ensures EntityStep(s, e) == s
  {
  }

  lemma {:induction false} EntitiesPhaseStable(s: Store, es: seq<Entity>)
    requires EntitiesRecorded(s, es)
    ensures EntitiesPhase(s, es) == s
  {
    if es != [] {
      EntitiesPhaseStable(s, es[..|es| - 1]);
      EntityStepStable(s, es[|es| - 1]);
    }
  }

  /** Merging the same entities a second time changes nothing. */
  lemma EntitiesPhaseIdempotent(s: Store, es: seq<Entity>)
    requires Wf(s)
    ensures EntitiesPhase(EntitiesPhase(s, es), es) == EntitiesPhase(s, es)
  {
    EntitiesPhaseRecords(s, es);
    EntitiesPhaseStable(EntitiesPhase(s, es), es);
  }

  // ---------------------------------------------------------------------
  // Phase 2: hierarchy

  /** One edge: applied only when both classes exist and the superclass is
      not already a parent; its information is recorded only together with
      a new edge, and only once. */
  function HierarchyStep(s: Store, h: Hierarchy): Store {
    if ClassExists(s, h.subclass) && ClassExists(s, h.superclass) then
      if NamedParent(h.superclass) !in Parents(s, h.subclass) then
        var t := s.(isA := s.isA[h.subclass := Parents(s, h.subclass) + [NamedParent(h.superclass)]]);
        if HasText(h.information) && h.information.value !in HierarchyInfo(s, h.subclass) then
          t.(hierarchyInformation := t.hierarchyInformation[h.subclass := HierarchyInfo(s, h.subclass) + [h.information.value]])
        else t
      else s
    else s
  }

  function HierarchyPhase(s: Store, hs: seq<Hierarchy>): Store {
    if hs == [] then s else HierarchyStep(HierarchyPhase(s, hs[..|hs| - 1]), hs[|hs| - 1])
  }

  /** A missing end, or an edge already present, leaves the store as it is
      (no information is recorded either). */
  lemma HierarchyStepUnchanged(s: Store, h: Hierarchy)
    requires !ClassExists(s, h.subclass) || !ClassExists(s, h.superclass)
             || NamedParent(h.superclass) in Parents(s, h.subclass)
    ensures HierarchyStep(s, h) == s
  {
  }

  /** A new edge adds exactly one parent at the end of the subclass's list,
      and appends the edge's information to the subclass's hierarchy
      information when it is non-empty and not recorded yet; no other class
      changes. */
  lemma HierarchyStepAdds(s: Store, h: Hierarchy)
    requires ClassExists(s, h.subclass) && ClassExists(s, h.superclass)
    requires NamedParent(h.superclass) !in Parents(s, h.subclass)
    ensures Parents(HierarchyStep(s, h), h.subclass) == Parents(s, h.subclass) + [NamedParent(h.superclass)]
    ensures forall c :: c != h.subclass ==> Parents(HierarchyStep(s, h), c) == Parents(s, c)
    ensures HierarchyInfo(HierarchyStep(s, h), h.subclass)
            == if HasText(h.information) && h.information.value !in HierarchyInfo(s, h.subclass)
               then HierarchyInfo(s, h.subclass) + [h.information.value]
               else HierarchyInfo(s, h.subclass)
    ensures forall c :: c != h.subclass ==> HierarchyInfo(HierarchyStep(s, h), c) == HierarchyInfo(s, c)
    ensures HierarchyStep(s, h).classes == s.classes
  {
    var t := s.(isA := s.isA[h.subclass := Parents(s, h.subclass) + [NamedParent(h.superclass)]]);
    var u := HierarchyStep(s, h);
    if HasText(h.information) && h.information.value !in HierarchyInfo(s, h.subclass) {
      assert u == t.(hierarchyInformation := t.hierarchyInformation[h.subclass := HierarchyInfo(s, h.subclass) + [h.information.value]]);
    } else {
      assert u == t;
    }
  }

  lemma HierarchyEdgeAddedWf(s: Store, h: Hierarchy)
    requires Wf(s) && ClassExists(s, h.subclass) && ClassExists(s, h.superclass)
    requires NamedParent(h.superclass) !in Parents(s, h.subclass)
    ensures Wf(HierarchyStep(s, h)) && Extends(s, HierarchyStep(s, h))
  {
    var ps := Parents(s, h.subclass) + [NamedParent(h.superclass)];
    var t0 := s.(isA := s.isA[h.subclass := ps]);
    NamedOnceAppend(Parents(s, h.subclass), NamedParent(h.superclass));
    SetParents(s, h.subclass, ps);
    if HasText(h.information) && h.information.value !in HierarchyInfo(s, h.subclass) {
      AppendNew(HierarchyInfo(s, h.subclass), h.information.value);
      assert HierarchyInfo(t0, h.subclass) == HierarchyInfo(s, h.subclass);
      SetHierarchyInformation(t0, h.subclass, HierarchyInfo(s, h.subclass) + [h.information.value]);
      ExtendsTransitive(s, t0, HierarchyStep(s, h));
    }
  }

  /** One edge keeps the invariant: no class gets the same named parent
      twice. */
  lemma HierarchyStepWf(s: Store, h: Hierarchy)
    requires Wf(s)
    ensures Wf(HierarchyStep(s, h)) && Extends(s, HierarchyStep(s, h))
    ensures HierarchyStep(s, h).classes == s.classes
  {
    if ClassExists(s, h.subclass) && ClassExists(s, h.superclass) && NamedParent(h.superclass) !in Parents(s, h.subclass) {
      HierarchyEdgeAddedWf(s, h);
    }
  }

  lemma {:induction false} HierarchyPhaseWf(s: Store, hs: seq<Hierarchy>)
    requires Wf(s)
    ensures Wf(HierarchyPhase(s, hs)) && Extends(s, HierarchyPhase(s, hs))
    ensures HierarchyPhase(s, hs).classes == s.classes
  {
    if hs != [] {
      HierarchyPhaseWf(s, hs[..|hs| - 1]);
      HierarchyStepWf(HierarchyPhase(s, hs[..|hs| - 1]), hs[|hs| - 1]);
      ExtendsTransitive(s, HierarchyPhase(s, hs[..|hs| - 1]), HierarchyPhase(s, hs));
    }
  }

  /** Every edge between existing classes is present. */
  ghost predicate EdgesRecorded(s: Store, hs: seq<Hierarchy>) {
    forall h :: h in hs && ClassExists(s, h.subclass) && ClassExists(s, h.superclass)
      ==> NamedParent(h.superclass) in Parents(s, h.subclass)
  }

  /** One more edge keeps the edges already recorded and records itself. */
  lemma HierarchyStepRecords(s: Store, hs: seq<Hierarchy>, h: Hierarchy)
    requires EdgesRecorded(s, hs)
    ensures EdgesRecorded(HierarchyStep(s, h), hs + [h])
  {
    var t := HierarchyStep(s, h);
    if ClassExists(s, h.subclass) && ClassExists(s, h.superclass) && NamedParent(h.superclass) !in Parents(s, h.subclass) {
      HierarchyStepAdds(s, h);
      forall g | g in hs + [h] && ClassExists(t, g.subclass) && ClassExists(t, g.superclass)
        ensures NamedParent(g.superclass) in Parents(t, g.subclass)
      {
        if g != h {
          assert g in hs;
          assert NamedParent(g.superclass) in Parents(s, g.subclass);
        }
      }
    } else {
      HierarchyStepUnchanged(s, h);
    }
  }

  lemma {:induction false} HierarchyPhaseRecords(s: Store, hs: seq<Hierarchy>)
    ensures EdgesRecorded(HierarchyPhase(s, hs), hs)
  {
    if hs != [] {
      HierarchyPhaseRecords(s, hs[..|hs| - 1]);
      HierarchyStepRecords(HierarchyPhase(s, hs[..|hs| - 1]), hs[..|hs| - 1], hs[|hs| - 1]);
      assert hs[..|hs| - 1] + [hs[|hs| - 1]] == hs;
    }
  }

  lemma {:induction false} HierarchyPhaseStable(s: Store, hs: seq<Hierarchy>)
    requires EdgesRecorded(s, hs)
    ensures HierarchyPhase(s, hs) == s
  {
    if hs != [] {
      HierarchyPhaseStable(s, hs[..|hs| - 1]);
      HierarchyStepUnchanged(s, hs[|hs| - 1]);
    }
  }

  /** Merging the same edges a second time changes nothing. */
  lemma HierarchyPhaseIdempotent(s: Store, hs: seq<Hierarchy>)
    ensures HierarchyPhase(HierarchyPhase(s, hs), hs) == HierarchyPhase(s, hs)
  {
    HierarchyPhaseRecords(s, hs);
    HierarchyPhaseStable(HierarchyPhase(s, hs), hs);
  }

  // ---------------------------------------------------------------------
  // Phase 3: disjointness

  /** One pair: an `AllDisjoint` axiom is added whenever both classes exist,
      even for a class paired with itself or a pair already declared. */
  function DisjointStep(s: Store, d: Disjointness): Store {
    if ClassExists(s, d.class1) && ClassExists(s, d.class2) then
      s.(disjoints := s.disjoints + [(d.class1, d.class2)])
    else s
  }

  function DisjointnessPhase(s: Store, ds: seq<Disjointness>): Store {
    if ds == [] then s else DisjointStep(DisjointnessPhase(s, ds[..|ds| - 1]), ds[|ds| - 1])
  }

  /** The pairs between existing classes, in input order. */
  function ValidPairs(s: Store, ds: seq<Disjointness>): seq<(string, string)> {
    if ds == [] then []
    else
      var d := ds[|ds| - 1];
      ValidPairs(s, ds[..|ds| - 1])
        + (if ClassExists(s, d.class1) && ClassExists(s, d.class2) then [(d.class1, d.class2)] else [])
  }

  /** The phase appends exactly one axiom per pair of existing classes, in
      input order, and touches nothing else. */
  lemma {:induction false} DisjointnessPhaseAppends(s: Store, ds: seq<Disjointness>)
    ensures DisjointnessPhase(s, ds) == s.(disjoints := s.disjoints + ValidPairs(s, ds))
  {
    if ds != [] {
      DisjointnessPhaseAppends(s, ds[..|ds| - 1]);
    }
  }

  lemma DisjointnessPhaseWf(s: Store, ds: seq<Disjointness>)
    requires Wf(s)
    ensures Wf(DisjointnessPhase(s, ds)) && Extends(s, DisjointnessPhase(s, ds))
    ensures DisjointnessPhase(s, ds).classes == s.classes
  {
    DisjointnessPhaseAppends(s, ds);
    ValidPairsExist(s, ds);
    var t := DisjointnessPhase(s, ds);
    forall d | d in t.disjoints ensures d.0 in t.classes && d.1 in t.classes {
      if d !in s.disjoints {
        assert d in ValidPairs(s, ds);
      }
    }
  }

  lemma {:induction false} ValidPairsExist(s: Store, ds: seq<Disjointness>)
    ensures forall d :: d in ValidPairs(s, ds) ==> d.0 in s.classes && d.1 in s.classes
  {
    if ds != [] {
      ValidPairsExist(s, ds[..|ds| - 1]);
    }
  }

  /** Not idempotent: merging a pair of existing classes twice records two
      axioms. */
  lemma DisjointTwice(s: Store, d: Disjointness)
    requires ClassExists(s, d.class1) && ClassExists(s, d.class2)
    ensures DisjointnessPhase(s, [d, d]).disjoints == s.disjoints + [(d.class1, d.class2), (d.class1, d.class2)]
  {
    assert [d, d][..1] == [d];
    assert [d][..0] == [];
    assert DisjointnessPhase(s, [d]) == DisjointStep(s, d);
  }

  // ---------------------------------------------------------------------
  // Phase 4: data properties

  /** Creates the property (with its information as the only entry when
      there is one) or appends new non-empty information to it. */
  function DeclareDataProperty(s: Store, name: string, information: Option<string>): Store {
    if name !in s.dataProperties then
      s.(dataProperties := s.dataProperties[name := if HasText(information) then [information.value] else []])
    else if HasText(information) && information.value !in s.dataProperties[name] then
      s.(dataProperties := s.dataProperties[name := s.dataProperties[name] + [information.value]])
    else s
  }

  /** One owner/value item: the value joins the owner's list for the
      property when the owner exists and the value is not already there. */
  function ValueStep(s: Store, property: string, item: (string, string)): Store {
    var (owner, value) := item;
    if ClassExists(s, owner) && value !in ValuesOf(s, owner, property) then
      s.(dataValues := s.dataValues[owner := ValueRow(s, owner)[property := ValuesOf(s, owner, property) + [value]]])
    else s
  }

  function ValuesPhase(s: Store, property: string, items: seq<(string, string)>): Store {
    if items == [] then s
    else ValueStep(ValuesPhase(s, property, items[..|items| - 1]), property, items[|items| - 1])
  }

  function DataPropertyStep(s: Store, dp: DataProperty): Store {
    var t := DeclareDataProperty(s, dp.name, dp.information);
    if NonEmpty(dp.values) then ValuesPhase(t, dp.name, dp.values.value) else t
  }

  function DataPropertiesPhase(s: Store, dps: seq<DataProperty>): Store {
    if dps == [] then s else DataPropertyStep(DataPropertiesPhase(s, dps[..|dps| - 1]), dps[|dps| - 1])
  }

  lemma DeclareDataPropertyWf(s: Store, name: string, information: Option<string>)
    requires Wf(s)
    ensures Wf(DeclareDataProperty(s, name, information)) && Extends(s, DeclareDataProperty(s, name, information))
    ensures name in DeclareDataProperty(s, name, information).dataProperties
    ensures HasText(information) ==> information.value in DeclareDataProperty(s, name, information).dataProperties[name]
    ensures DeclareDataProperty(s, name, information).classes == s.classes
  {
    if name !in s.dataProperties {
      SetDataProperty(s, name, if HasText(information) then [information.value] else []);
    } else if HasText(information) && information.value !in s.dataProperties[name] {
      AppendNew(s.dataProperties[name], information.value);
      SetDataProperty(s, name, s.dataProperties[name] + [information.value]);
    }
  }

  lemma ValueStepWf(s: Store, property: string, item: (string, string))
    requires Wf(s)
    ensures Wf(ValueStep(s, property, item)) && Extends(s, ValueStep(s, property, item))
    ensures ValueStep(s, property, item).classes == s.classes
    ensures ValueStep(s, property, item).dataProperties == s.dataProperties
    ensures ClassExists(s, item.0) ==> item.1 in ValuesOf(ValueStep(s, property, item), item.0, property)
  {
    var (owner, value) := item;
    if ClassExists(s, owner) && value !in ValuesOf(s, owner, property) {
      AppendNew(ValuesOf(s, owner, property), value);
      SetValues(s, owner, property, ValuesOf(s, owner, property) + [value]);
    }
  }

  lemma {:induction false} ValuesPhaseWf(s: Store, property: string, items: seq<(string, string)>)
    requires Wf(s)
    ensures Wf(ValuesPhase(s, property, items)) && Extends(s, ValuesPhase(s, property, items))
    ensures ValuesPhase(s, property, items).classes == s.classes
    ensures ValuesPhase(s, property, items).dataProperties == s.dataProperties
  {
    if items != [] {
      var init := items[..|items| - 1];
      ValuesPhaseWf(s, property, init);
      ValueStepWf(ValuesPhase(s, property, init), property, items[|items| - 1]);
      ExtendsTransitive(s, ValuesPhase(s, property, init), ValuesPhase(s, property, items));
    }
  }

  lemma {:induction false} DataPropertiesPhaseWf(s: Store, dps: seq<DataProperty>)
    requires Wf(s)
    ensures Wf(DataPropertiesPhase(s, dps)) && Extends(s, DataPropertiesPhase(s, dps))
    ensures DataPropertiesPhase(s, dps).classes == s.classes
  {
    if dps != [] {
      var mid := DataPropertiesPhase(s, dps[..|dps| - 1]);
      var dp := dps[|dps| - 1];
      DataPropertiesPhaseWf(s, dps[..|dps| - 1]);
      DeclareDataPropertyWf(mid, dp.name, dp.information);
      var t := DeclareDataProperty(mid, dp.name, dp.information);
      ExtendsTransitive(s, mid, t);
      if NonEmpty(dp.values) {
        ValuesPhaseWf(t, dp.name, dp.values.value);
        ExtendsTransitive(s, t, DataPropertiesPhase(s, dps));
      }
    }
  }

  /** A value for an existing owner ends up in the owner's list. */
  ghost predicate ValuesRecorded(s: Store, property: string, items: seq<(string, string)>) {
    forall it :: it in items && ClassExists(s, it.0) ==> it.1 in ValuesOf(s, it.0, property)
  }

  lemma {:induction false} ValuesPhaseRecords(s: Store, property: string, items: seq<(string, string)>)
    requires Wf(s)
    ensures ValuesRecorded(ValuesPhase(s, property, items), property, items)
  {
    if items != [] {
      var init := items[..|items| - 1];
      var last := items[|items| - 1];
      var mid := ValuesPhase(s, property, init);
      ValuesPhaseRecords(s, property, init);
      ValuesPhaseWf(s, property, init);
      ValueStepWf(mid, property, last);
      var t := ValuesPhase(s, property, items);
      forall it | it in items && ClassExists(t, it.0)
        ensures it.1 in ValuesOf(t, it.0, property)
      {
        if it != last {
          assert it in init;
          ExtendsKeeps(mid, t, it.0, property);
        }
      }
    }
  }

  lemma ValueStepStable(s: Store, property: string, item: (string, string))
    requires ClassExists(s, item.0) ==> item.1 in ValuesOf(s, item.0, property)
    ensures ValueStep(s, property, item) == s
  {
  }

  lemma {:induction false} ValuesPhaseStable(s: Store, property: string, items: seq<(string, string)>)
    requires ValuesRecorded(s, property, items)
    ensures ValuesPhase(s, property, items) == s
  {
    if items != [] {
      ValuesPhaseStable(s, property, items[..|items| - 1]);
      ValueStepStable(s, property, items[|items| - 1]);
    }
  }

  /** Applying the same owner/value items again changes nothing. */
  lemma ValuesPhaseIdempotent(s: Store, property: string, items: seq<(string, string)>)
    requires Wf(s)
    ensures ValuesPhase(ValuesPhase(s, property, items), property, items) == ValuesPhase(s, property, items)
  {
    ValuesPhaseRecords(s, property, items);
    ValuesPhaseStable(ValuesPhase(s, property, items), property, items);
  }

  // ---------------------------------------------------------------------
  // Phase 5: object properties

  /** Creates the property or appends new non-empty information to it. */
  function DeclareObjectProperty(s: Store, name: string, information: Option<string>): Store {
    if name !in s.objectProperties then
      s.(objectProperties := s.objectProperties[name := if HasText(information) then [information.value] else []])
    else if HasText(information) && information.value !in s.objectProperties[name] then
      s.(objectProperties := s.objectProperties[name := s.objectProperties[name] + [information.value]])
    else s
  }

  /** `[e.strip() for e in raw.split(',')]`: the comma-separated names,
      none holding a comma and each already stripped. */
  function NamesOf(raw: string): (names: seq<string>)
    ensures forall i :: 0 <= i < |names| ==> ',' !in names[i] && Strip(names[i]) == names[i]
  {
    var parts := Split(raw, ",");
    SplitPiecesFree(raw, ",");
    var names := seq(|parts|, i requires 0 <= i < |parts| => Strip(parts[i]));
    forall i | 0 <= i < |names| ensures ',' !in names[i] && Strip(names[i]) == names[i] {
      ContainsChar(parts[i], ',');
      if ',' in names[i] {
        StripKeeps(parts[i], ',');
      }
      StripIdempotent(parts[i]);
    }
    names
  }

  predicate AllExist(s: Store, names: seq<string>) {
    forall n :: n in names ==> ClassExists(s, n)
  }

  /** `class_namespace[raw]`: the class of that exact name, or `None`. */
  function Lookup(s: Store, raw: string): ClassExpr {
    if ClassExists(s, raw) then Named(raw) else NoClass
  }

  /** The quantifier is universal only for 'only'. */
  function QuantifierOf(w: RestrictionWord): Quantifier {
    if w == OnlyWord then Universal else Existential
  }

  /** The range expression of an instance whose range names all exist, or
      `None` when the instance is abandoned: a 'single' range must name
      exactly one class (ValueError), and a range without a type reuses the
      expression of an earlier instance, failing (UnboundLocalError) when
      there is none. */
  function RangeExpr(s: Store, raw: string, kind: Option<ExprType>, names: seq<string>,
                     last: Option<ClassExpr>): Option<ClassExpr> {
    match kind
    case Some(Single) => if |names| != 1 then None else Some(Lookup(s, raw))
    case Some(Union) => Some(Or(names))
    case Some(Intersection) => Some(And(names))
    case None => last
  }

  /** Attaches a restriction to the domain: a 'single' domain is looked up
      by its raw text and gets the restriction appended to its `is_a` (a
      failed lookup raises AttributeError and attaches nothing); any other
      domain type becomes a general class axiom over the union ('union') or
      the intersection (otherwise) of the domain names. */
  function Attach(s: Store, raw: string, kind: Option<ExprType>, names: seq<string>, r: Restriction): Store {
    if kind == Some(Single) then
      if ClassExists(s, raw) then s.(isA := s.isA[raw := Parents(s, raw) + [RestrictionParent(r)]]) else s
    else
      var domain := if kind == Some(Union) then Or(names) else And(names);
      s.(generalAxioms := s.generalAxioms + [GeneralAxiom(domain, r)])
  }

  /** The object-property phase's state: the store, and the function-local
      range expression that outlives each instance. */
  datatype Cursor = Cursor(store: Store, lastRange: Option<ClassExpr>)

  /** Both the domain and the range are present with non-empty entity text. */
  predicate Guarded(inst: PropertyInstance) {
    inst.domain.Some? && HasText(inst.domain.value.entity) && inst.range.Some? && HasText(inst.range.value.entity)
  }

  /** One domain/range instance of the property `property`. Any failure
      (a missing class, the arity error, a missing range expression, a
      failed lookup) abandons the instance only. */
  function InstanceStep(c: Cursor, property: string, inst: PropertyInstance): Cursor {
    if !Guarded(inst) then c
    else
      var s := c.store;
      var rawRange := inst.range.value.entity.value;
      var rangeNames := NamesOf(rawRange);
      if !AllExist(s, rangeNames) then c
      else
        match RangeExpr(s, rawRange, inst.range.value.kind, rangeNames, c.lastRange)
        case None => c
        case Some(e) =>
          var r := Restriction(property, QuantifierOf(inst.restriction), e);
          var rawDomain := inst.domain.value.entity.value;
          var domainNames := NamesOf(rawDomain);
          if !AllExist(s, domainNames) then Cursor(s, Some(e))
          else Cursor(Attach(s, rawDomain, inst.domain.value.kind, domainNames, r), Some(e))
  }

  function InstancesPhase(c: Cursor, property: string, insts: seq<PropertyInstance>): Cursor {
    if insts == [] then c
    else InstanceStep(InstancesPhase(c, property, insts[..|insts| - 1]), property, insts[|insts| - 1])
  }

  function ObjectPropertyStep(c: Cursor, op: ObjectPropertyItem): Cursor {
    var s := DeclareObjectProperty(c.store, op.name, op.information);
    if NonEmpty(op.instances) then InstancesPhase(Cursor(s, c.lastRange), op.name, op.instances.value)
    else Cursor(s, c.lastRange)
  }

  function ObjectPropertiesFrom(c: Cursor, ops: seq<ObjectPropertyItem>): Cursor {
    if ops == [] then c else ObjectPropertyStep(ObjectPropertiesFrom(c, ops[..|ops| - 1]), ops[|ops| - 1])
  }

  /** The phase starts with no range expression. */
  function ObjectPropertiesPhase(s: Store, ops: seq<ObjectPropertyItem>): Store {
    ObjectPropertiesFrom(Cursor(s, None), ops).store
  }

  ghost predicate CursorWf(c: Cursor) {
    Wf(c.store) && (c.lastRange.Some? ==> ExprIn(c.lastRange.value, c.store.classes))
  }

  lemma DeclareObjectPropertyWf(s: Store, name: string, information: Option<string>)
    requires Wf(s)
    ensures Wf(DeclareObjectProperty(s, name, information)) && Extends(s, DeclareObjectProperty(s, name, information))
    ensures name in DeclareObjectProperty(s, name, information).objectProperties
    ensures HasText(information) ==> information.value in DeclareObjectProperty(s, name, information).objectProperties[name]
    ensures name !in s.objectProperties ==>
              DeclareObjectProperty(s, name, information).objectProperties[name]
              == if HasText(information) then [information.value] else []
    ensures name in s.objectProperties ==>
              s.objectProperties[name] <= DeclareObjectProperty(s, name, information).objectProperties[name]
              && |DeclareObjectProperty(s, name, information).objectProperties[name]| <= |s.objectProperties[name]| + 1
    ensures DeclareObjectProperty(s, name, information).classes == s.classes
  {
    if name !in s.objectProperties {
      SetObjectProperty(s, name, if HasText(information) then [information.value] else []);
    } else if HasText(information) && information.value !in s.objectProperties[name] {
      AppendNew(s.objectProperties[name], information.value);
      SetObjectProperty(s, name, s.objectProperties[name] + [information.value]);
    }
  }

  lemma AttachWf(s: Store, raw: string, kind: Option<ExprType>, names: seq<string>, r: Restriction)
    requires Wf(s) && AllExist(s, names) && RestrictionIn(r, s.classes, s.objectProperties.Keys)
    ensures Wf(Attach(s, raw, kind, names, r)) && Extends(s, Attach(s, raw, kind, names, r))
    ensures Attach(s, raw, kind, names, r).classes == s.classes
  {
    if kind == Some(Single) {
      if ClassExists(s, raw) {
        var ps := Parents(s, raw);
        NamedOnceAppend(ps, RestrictionParent(r));
        SetParents(s, raw, ps + [RestrictionParent(r)]);
      }
    } else {
      var domain := if kind == Some(Union) then Or(names) else And(names);
      assert ExprIn(domain, s.classes);
    }
  }

  /** The range expression names only classes of the store. */
  lemma RangeExprIn(s: Store, raw: string, kind: Option<ExprType>, names: seq<string>, last: Option<ClassExpr>)
    requires AllExist(s, names) && (last.Some? ==> ExprIn(last.value, s.classes))
    ensures RangeExpr(s, raw, kind, names, last).Some? ==> ExprIn(RangeExpr(s, raw, kind, names, last).value, s.classes)
  {
  }

  lemma InstanceStepWf(c: Cursor, property: string, inst: PropertyInstance)
    requires CursorWf(c) && property in c.store.objectProperties
    ensures CursorWf(InstanceStep(c, property, inst))
    ensures Extends(c.store, InstanceStep(c, property, inst).store)
    ensures InstanceStep(c, property, inst).store.classes == c.store.classes
    ensures property in InstanceStep(c, property, inst).store.objectProperties
  {
    if Guarded(inst) {
      var s := c.store;
      var rawRange := inst.range.value.entity.value;
      var rangeNames := NamesOf(rawRange);
      if AllExist(s, rangeNames) {
        var range := RangeExpr(s, rawRange, inst.range.value.kind, rangeNames, c.lastRange);
        RangeExprIn(s, rawRange, inst.range.value.kind, rangeNames, c.lastRange);
        if range.Some? {
          var r := Restriction(property, QuantifierOf(inst.restriction), range.value);
          var rawDomain := inst.domain.value.entity.value;
          var domainNames := NamesOf(rawDomain);
          if AllExist(s, domainNames) {
            AttachWf(s, rawDomain, inst.domain.value.kind, domainNames, r);
          }
        }
      }
    }
  }

  lemma {:induction false} InstancesPhaseWf(c: Cursor, property: string, insts: seq<PropertyInstance>)
    requires CursorWf(c) && property in c.store.objectProperties
    ensures CursorWf(InstancesPhase(c, property, insts))
    ensures Extends(c.store, InstancesPhase(c, property, insts).store)
    ensures InstancesPhase(c, property, insts).store.classes == c.store.classes
    ensures property in InstancesPhase(c, property, insts).store.objectProperties
  {
    if insts != [] {
      var mid := InstancesPhase(c, property, insts[..|insts| - 1]);
      InstancesPhaseWf(c, property, insts[..|insts| - 1]);
      InstanceStepWf(mid, property, insts[|insts| - 1]);
      ExtendsTransitive(c.store, mid.store, InstancesPhase(c, property, insts).store);
    }
  }

  lemma ObjectPropertyStepWf(c: Cursor, op: ObjectPropertyItem)
    requires CursorWf(c)
    ensures CursorWf(ObjectPropertyStep(c, op)) && Extends(c.store, ObjectPropertyStep(c, op).store)
    ensures ObjectPropertyStep(c, op).store.classes == c.store.classes
  {
    var s := DeclareObjectProperty(c.store, op.name, op.information);
    DeclareObjectPropertyWf(c.store, op.name, op.information);
    if NonEmpty(op.instances) {
      InstancesPhaseWf(Cursor(s, c.lastRange), op.name, op.instances.value);
      ExtendsTransitive(c.store, s, ObjectPropertyStep(c, op).store);
    }
  }

  lemma {:induction false} ObjectPropertiesFromWf(c: Cursor, ops: seq<ObjectPropertyItem>)
    requires CursorWf(c)
    ensures CursorWf(ObjectPropertiesFrom(c, ops)) && Extends(c.store, ObjectPropertiesFrom(c, ops).store)
    ensures ObjectPropertiesFrom(c, ops).store.classes == c.store.classes
  {
    if ops != [] {
      var mid := ObjectPropertiesFrom(c, ops[..|ops| - 1]);
      ObjectPropertiesFromWf(c, ops[..|ops| - 1]);
      ObjectPropertyStepWf(mid, ops[|ops| - 1]);
      ExtendsTransitive(c.store, mid.store, ObjectPropertiesFrom(c, ops).store);
    }
  }

  /** An instance attaches nothing unless both entity texts are non-empty
      and every comma-separated, trimmed range and domain name exists. */
  lemma InstanceNeedsGuards(c: Cursor, property: string, inst: PropertyInstance)
    requires !Guarded(inst)
             || !AllExist(c.store, NamesOf(inst.range.value.entity.value))
             || !AllExist(c.store, NamesOf(inst.domain.value.entity.value))
    ensures InstanceStep(c, property, inst).store == c.store
  {
  }

  /** A 'single' range that does not split into exactly one name abandons
      the instance: neither the store nor the remembered range changes. */
  lemma SingleRangeArity(c: Cursor, property: string, inst: PropertyInstance)
    requires Guarded(inst) && inst.range.value.kind == Some(Single)
    requires |NamesOf(inst.range.value.entity.value)| != 1
    ensures InstanceStep(c, property, inst) == c
  {
  }

  /** The instances after an abandoned one are processed as if it had not
      been there. */
  lemma {:induction false} InstancesPhaseAppend(c: Cursor, property: string, xs: seq<PropertyInstance>,
                                                ys: seq<PropertyInstance>)
    ensures InstancesPhase(c, property, xs + ys) == InstancesPhase(InstancesPhase(c, property, xs), property, ys)
    decreases |ys|
  {
    if ys == [] {
      assert xs + ys == xs;
    } else {
      var zs := xs + ys;
      assert zs[..|zs| - 1] == xs + ys[..|ys| - 1];
      assert zs[|zs| - 1] == ys[|ys| - 1];
      InstancesPhaseAppend(c, property, xs, ys[..|ys| - 1]);
    }
  }

  lemma AbandonedInstanceSkipped(c: Cursor, property: string, xs: seq<PropertyInstance>,
                                 bad: PropertyInstance, ys: seq<PropertyInstance>)
    requires Guarded(bad) && bad.range.value.kind == Some(Single)
    requires |NamesOf(bad.range.value.entity.value)| != 1
    ensures InstancesPhase(c, property, xs + [bad] + ys) == InstancesPhase(c, property, xs + ys)
  {
    InstancesPhaseAppend(c, property, xs + [bad], ys);
    InstancesPhaseAppend(c, property, xs, ys);
    assert (xs + [bad])[..|xs + [bad]| - 1] == xs;
    SingleRangeArity(InstancesPhase(c, property, xs), property, bad);
  }

  /** What an instance that passes every check attaches: the restriction
      quantifies universally exactly for 'only'; a 'single' domain that
      names a class gets it in its `is_a`, any other domain type yields a
      general class axiom, a union for 'union' and an intersection
      otherwise. */
  lemma InstanceAttaches(c: Cursor, property: string, inst: PropertyInstance, e: ClassExpr)
    requires Guarded(inst)
    requires AllExist(c.store, NamesOf(inst.range.value.entity.value))
    requires AllExist(c.store, NamesOf(inst.domain.value.entity.value))
    requires RangeExpr(c.store, inst.range.value.entity.value, inst.range.value.kind,
                       NamesOf(inst.range.value.entity.value), c.lastRange) == Some(e)
    ensures var t := InstanceStep(c, property, inst).store;
            var r := Restriction(property, QuantifierOf(inst.restriction), e);
            var raw := inst.domain.value.entity.value;
            var names := NamesOf(raw);
            (r.quantifier == Universal <==> inst.restriction == OnlyWord)
            && (inst.domain.value.kind == Some(Single) && ClassExists(c.store, raw) ==>
                  Parents(t, raw) == Parents(c.store, raw) + [RestrictionParent(r)]
                  && t.generalAxioms == c.store.generalAxioms)
            && (inst.domain.value.kind == Some(Union) ==>
                  t.generalAxioms == c.store.generalAxioms + [GeneralAxiom(Or(names), r)])
            && (inst.domain.value.kind.None? || inst.domain.value.kind == Some(Intersection) ==>
                  t.generalAxioms == c.store.generalAxioms + [GeneralAxiom(And(names), r)])
            && InstanceStep(c, property, inst).lastRange == Some(e)
  {
  }

  /** A range without a type, met before any other range expression in the
      phase, abandons the instance. */
  lemma UntypedRangeFirst(s: Store, property: string, inst: PropertyInstance)
    requires Guarded(inst) && inst.range.value.kind.None?
    ensures InstanceStep(Cursor(s, None), property, inst) == Cursor(s, None)
  {
  }

  /** A range without a type keeps the remembered range expression. */
  lemma UntypedRangeKept(c: Cursor, property: string, inst: PropertyInstance)
    requires Guarded(inst) && inst.range.value.kind.None?
    ensures InstanceStep(c, property, inst).lastRange == c.lastRange
  {
  }

  // ---------------------------------------------------------------------
  // The whole merge

  /** The optional phases run only when their list is present and
      non-empty. */
  function HierarchyIfAny(s: Store, hs: Option<seq<Hierarchy>>): Store {
    if NonEmpty(hs) then HierarchyPhase(s, hs.value) else s
  }

  function DisjointnessIfAny(s: Store, ds: Option<seq<Disjointness>>): Store {
    if NonEmpty(ds) then DisjointnessPhase(s, ds.value) else s
  }

  function DataPropertiesIfAny(s: Store, dps: Option<seq<DataProperty>>): Store {
    if NonEmpty(dps) then DataPropertiesPhase(s, dps.value) else s
  }

  /** `merge_ontology`: entities always; hierarchy, disjointness and data
      properties only when their lists are non-empty; object properties
      always. The save that follows is not part of the model. */
  function Merge(s: Store, elements: OntologyElements, properties: OntologyProperties): Store {
    var s1 := EntitiesPhase(s, elements.entities);
    var s2 := HierarchyIfAny(s1, elements.hierarchy);
    var s3 := DisjointnessIfAny(s2, elements.disjointness);
    var s4 := DataPropertiesIfAny(s3, properties.dataProperties);
    ObjectPropertiesPhase(s4, properties.objectProperties)
  }

  /** Each later phase keeps the invariant and everything recorded before
      the merge began (`s0`), and creates no class. */
  lemma HierarchyIfAnyWf(s0: Store, s: Store, hs: Option<seq<Hierarchy>>)
    requires Wf(s) && Extends(s0, s)
    ensures Wf(HierarchyIfAny(s, hs)) && Extends(s0, HierarchyIfAny(s, hs))
    ensures HierarchyIfAny(s, hs).classes == s.classes
  {
    if NonEmpty(hs) {
      HierarchyPhaseWf(s, hs.value);
      ExtendsTransitive(s0, s, HierarchyIfAny(s, hs));
    }
  }

  lemma DisjointnessIfAnyWf(s0: Store, s: Store, ds: Option<seq<Disjointness>>)
    requires Wf(s) && Extends(s0, s)
    ensures Wf(DisjointnessIfAny(s, ds)) && Extends(s0, DisjointnessIfAny(s, ds))
    ensures DisjointnessIfAny(s, ds).classes == s.classes
  {
    if NonEmpty(ds) {
      DisjointnessPhaseWf(s, ds.value);
      ExtendsTransitive(s0, s, DisjointnessIfAny(s, ds));
    }
  }

  lemma DataPropertiesIfAnyWf(s0: Store, s: Store, dps: Option<seq<DataProperty>>)
    requires Wf(s) && Extends(s0, s)
    ensures Wf(DataPropertiesIfAny(s, dps)) && Extends(s0, DataPropertiesIfAny(s, dps))
    ensures DataPropertiesIfAny(s, dps).classes == s.classes
  {
    if NonEmpty(dps) {
      DataPropertiesPhaseWf(s, dps.value);
      ExtendsTransitive(s0, s, DataPropertiesIfAny(s, dps));
    }
  }

  lemma ObjectPropertiesPhaseWf(s0: Store, s: Store, ops: seq<ObjectPropertyItem>)
    requires Wf(s) && Extends(s0, s)
    ensures Wf(ObjectPropertiesPhase(s, ops)) && Extends(s0, ObjectPropertiesPhase(s, ops))
    ensures ObjectPropertiesPhase(s, ops).classes == s.classes
  {
    ObjectPropertiesFromWf(Cursor(s, None), ops);
    ExtendsTransitive(s0, s, ObjectPropertiesPhase(s, ops));
  }

  /** The merge keeps the invariant, loses nothing that was recorded, and
      creates exactly the classes of the payload's entities. */
  lemma MergeWf(s: Store, elements: OntologyElements, properties: OntologyProperties)
    requires Wf(s)
    ensures Wf(Merge(s, elements, properties)) && Extends(s, Merge(s, elements, properties))
    ensures Merge(s, elements, properties).classes == s.classes + EntityNames(elements.entities)
  {
    var s1 := EntitiesPhase(s, elements.entities);
    EntitiesPhaseWf(s, elements.entities);
    var s2 := HierarchyIfAny(s1, elements.hierarchy);
    HierarchyIfAnyWf(s, s1, elements.hierarchy);
    var s3 := DisjointnessIfAny(s2, elements.disjointness);
    DisjointnessIfAnyWf(s, s2, elements.disjointness);
    var s4 := DataPropertiesIfAny(s3, properties.dataProperties);
    DataPropertiesIfAnyWf(s, s3, properties.dataProperties);
    ObjectPropertiesPhaseWf(s, s4, properties.objectProperties);
  }
}
