/** `autonogy_constructor/ontology_merge.py`: the persistent ontology as an
    object updated in place, one loop per payload list. Each method is proved
    to leave the store exactly as the matching phase of `MergeModel` says, so
    every property proved there holds for the object. */
module OntologyMerge {
  import opened Wrappers
  import Removal
  import opened Text
  import opened Payload
  import opened MergeModel

  class OntologyStore {
    var classes: set<string>
    var information: map<string, seq<string>>
    var isA: map<string, seq<Parent>>
    var hierarchyInformation: map<string, seq<string>>
    var disjoints: seq<(string, string)>
    var dataProperties: map<string, seq<string>>
    var dataValues: map<string, map<string, seq<string>>>
    var objectProperties: map<string, seq<string>>
    var generalAxioms: seq<GeneralAxiom>

    /** The whole state as a value. */
    function Snapshot(): Store
      reads this
    {
      Store(classes, information, isA, hierarchyInformation, disjoints,
            dataProperties, dataValues, objectProperties, generalAxioms)
    }

    constructor (initial: Store)
      ensures Snapshot() == initial
    {
      classes := initial.classes;
      information := initial.information;
      isA := initial.isA;
      hierarchyInformation := initial.hierarchyInformation;
      disjoints := initial.disjoints;
      dataProperties := initial.dataProperties;
      dataValues := initial.dataValues;
      objectProperties := initial.objectProperties;
      generalAxioms := initial.generalAxioms;
    }

    /** `_merge_entities` */
    method MergeEntities(entities: seq<Entity>)
      modifies this
      ensures Snapshot() == EntitiesPhase(old(Snapshot()), entities)
    {
      var i := 0;
      while i < |entities|
        invariant 0 <= i <= |entities|
        invariant Snapshot() == EntitiesPhase(old(Snapshot()), entities[..i])
      {
        var entity := entities[i];
        if entity.name !in classes {
          classes := classes + {entity.name};
          if HasText(entity.information) {
            information := information[entity.name := [entity.information.value]];
          }
        } else {
          var current := if entity.name in information then information[entity.name] else [];
          if HasText(entity.information) && entity.information.value !in current {
            information := information[entity.name := current + [entity.information.value]];
          }
        }
        Removal.PrefixOfPrefix(entities, i);
        i := i + 1;
      }
      Removal.WholePrefix(entities);
    }

    /** `_merge_hierarchy` */
    method MergeHierarchy(hierarchies: seq<Hierarchy>)
      modifies this
      ensures Snapshot() == HierarchyPhase(old(Snapshot()), hierarchies)
    {
      var i := 0;
      while i < |hierarchies|
        invariant 0 <= i <= |hierarchies|
        invariant Snapshot() == HierarchyPhase(old(Snapshot()), hierarchies[..i])
      {
        var h := hierarchies[i];
        ghost var before := Snapshot();
        if h.subclass in classes && h.superclass in classes {
          var parents := if h.subclass in isA then isA[h.subclass] else [];
          if NamedParent(h.superclass) !in parents {
            isA := isA[h.subclass := parents + [NamedParent(h.superclass)]];
            var notes := if h.subclass in hierarchyInformation then hierarchyInformation[h.subclass] else [];
            if HasText(h.information) && h.information.value !in notes {
              hierarchyInformation := hierarchyInformation[h.subclass := notes + [h.information.value]];
            }
          }
        }
        assert Snapshot() == HierarchyStep(before, h);
        Removal.PrefixOfPrefix(hierarchies, i);
        i := i + 1;
      }
      Removal.WholePrefix(hierarchies);
    }

    /** `_merge_disjointness` */
    method MergeDisjointness(pairs: seq<Disjointness>)
      modifies this
      ensures Snapshot() == DisjointnessPhase(old(Snapshot()), pairs)
    {
      var i := 0;
      while i < |pairs|
        invariant 0 <= i <= |pairs|
        invariant Snapshot() == DisjointnessPhase(old(Snapshot()), pairs[..i])
      {
        var d := pairs[i];
        if d.class1 in classes && d.class2 in classes {
          disjoints := disjoints + [(d.class1, d.class2)];
        }
        Removal.PrefixOfPrefix(pairs, i);
        i := i + 1;
      }
      Removal.WholePrefix(pairs);
    }

    /** The `dp.values.items()` loop of `_merge_data_properties`. */
    method MergeValues(property: string, items: seq<(string, string)>)
      modifies this
      ensures Snapshot() == ValuesPhase(old(Snapshot()), property, items)
    {
      var j := 0;
      while j < |items|
        invariant 0 <= j <= |items|
        invariant Snapshot() == ValuesPhase(old(Snapshot()), property, items[..j])
      {
        var (owner, value) := items[j];
        if owner in classes {
          var row := if owner in dataValues then dataValues[owner] else map[];
          var current := if property in row then row[property] else [];
          if value !in current {
            dataValues := dataValues[owner := row[property := current + [value]]];
          }
        }
        Removal.PrefixOfPrefix(items, j);
        j := j + 1;
      }
      Removal.WholePrefix(items);
    }

    /** `_merge_data_properties` */
    method MergeDataProperties(properties: seq<DataProperty>)
      modifies this
      ensures Snapshot() == DataPropertiesPhase(old(Snapshot()), properties)
    {
      var i := 0;
      while i < |properties|
        invariant 0 <= i <= |properties|
        invariant Snapshot() == DataPropertiesPhase(old(Snapshot()), properties[..i])
      {
        var dp := properties[i];
        if dp.name !in dataProperties {
          dataProperties := dataProperties[dp.name := if HasText(dp.information) then [dp.information.value] else []];
        } else if HasText(dp.information) && dp.information.value !in dataProperties[dp.name] {
          dataProperties := dataProperties[dp.name := dataProperties[dp.name] + [dp.information.value]];
        }
        if NonEmpty(dp.values) {
          MergeValues(dp.name, dp.values.value);
        }
        Removal.PrefixOfPrefix(properties, i);
        i := i + 1;
      }
      Removal.WholePrefix(properties);
    }

    /** The `op.instances` loop of `_merge_object_properties`. `rangeExpr`
        is the function-level variable of the source: it comes in holding
        the last range expression built so far, and goes out holding the
        one built last. */
    method MergeInstances(property: string, instances: seq<PropertyInstance>, rangeExpr: Option<ClassExpr>)
      returns (lastRange: Option<ClassExpr>)
      modifies this
      ensures Cursor(Snapshot(), lastRange) == InstancesPhase(Cursor(old(Snapshot()), rangeExpr), property, instances)
    {
      lastRange := rangeExpr;
      var j := 0;
      while j < |instances|
        invariant 0 <= j <= |instances|
        invariant Cursor(Snapshot(), lastRange)
                  == InstancesPhase(Cursor(old(Snapshot()), rangeExpr), property, instances[..j])
      {
        var inst := instances[j];
        if Guarded(inst) {
          var rawRange := inst.range.value.entity.value;
          var rangeNames := NamesOf(rawRange);
          if AllExist(Snapshot(), rangeNames) {
            // an arity error or an unbound range expression abandons the instance
            var built: Option<ClassExpr> := None;
            match inst.range.value.kind {
              case Some(Single) =>
                if |rangeNames| == 1 {
                  built := Some(if rawRange in classes then Named(rawRange) else NoClass);
                }
              case Some(Union) => built := Some(Or(rangeNames));
              case Some(Intersection) => built := Some(And(rangeNames));
              case None => built := lastRange;
            }
            if built.Some? {
              lastRange := built;
              var r := Restriction(property, QuantifierOf(inst.restriction), built.value);
              var rawDomain := inst.domain.value.entity.value;
              var domainNames := NamesOf(rawDomain);
              if AllExist(Snapshot(), domainNames) {
                if inst.domain.value.kind == Some(Single) {
                  if rawDomain in classes {
                    var parents := if rawDomain in isA then isA[rawDomain] else [];
                    isA := isA[rawDomain := parents + [RestrictionParent(r)]];
                  }
                } else {
                  var domain := if inst.domain.value.kind == Some(Union) then Or(domainNames) else And(domainNames);
                  generalAxioms := generalAxioms + [GeneralAxiom(domain, r)];
                }
              }
            }
          }
        }
        Removal.PrefixOfPrefix(instances, j);
        j := j + 1;
      }
      Removal.WholePrefix(instances);
    }

    /** `_merge_object_properties` */
    method MergeObjectProperties(properties: seq<ObjectPropertyItem>)
      modifies this
      ensures Snapshot() == ObjectPropertiesPhase(old(Snapshot()), properties)
    {
      var rangeExpr: Option<ClassExpr> := None;
      var i := 0;
      while i < |properties|
        invariant 0 <= i <= |properties|
        invariant Cursor(Snapshot(), rangeExpr)
                  == ObjectPropertiesFrom(Cursor(old(Snapshot()), None), properties[..i])
      {
        var op := properties[i];
        if op.name !in objectProperties {
          objectProperties := objectProperties[op.name := if HasText(op.information) then [op.information.value] else []];
        } else if HasText(op.information) && op.information.value !in objectProperties[op.name] {
          objectProperties := objectProperties[op.name := objectProperties[op.name] + [op.information.value]];
        }
        if NonEmpty(op.instances) {
          rangeExpr := MergeInstances(op.name, op.instances.value, rangeExpr);
        }
        Removal.PrefixOfPrefix(properties, i);
        i := i + 1;
      }
      Removal.WholePrefix(properties);
    }

    /** `merge_ontology` */
    method MergeOntology(elements: OntologyElements, properties: OntologyProperties)
      modifies this
      ensures Snapshot() == Merge(old(Snapshot()), elements, properties)
      ensures Wf(old(Snapshot())) ==> Wf(Snapshot()) && Extends(old(Snapshot()), Snapshot())
    {
      MergeEntities(elements.entities);
      if NonEmpty(elements.hierarchy) {
        MergeHierarchy(elements.hierarchy.value);
      }
      if NonEmpty(elements.disjointness) {
        MergeDisjointness(elements.disjointness.value);
      }
      if NonEmpty(properties.dataProperties) {
        MergeDataProperties(properties.dataProperties.value);
      }
      MergeObjectProperties(properties.objectProperties);
      if Wf(old(Snapshot())) {
        MergeWf(old(Snapshot()), elements, properties);
      }
    }
  }
}
