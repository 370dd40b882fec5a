/**
 The egress section of a manifest, read flat: every rule spelled out on the
 declared values, and proved to be what the validators accept.
 */
module EgressManifestLaws {
  import opened Prelude
  import opened Text
  import opened EdgeNames
  import opened EgressManifest

  /** Some entry of the component declares the type. */
  ghost predicate Declared(e: EgressSync, name: string) {
    name != "" && exists j :: 0 <= j < |e.entities| && e.entities[j].name == name
  }

  ghost predicate FlatParentEdge(e: EgressSync, et: EntityType, pe: ParentEdge) {
    && Trim(pe.edge) != "" && (pe.direction == "" || pe.direction == "out" || pe.direction == "in")
    && IsAddressable(pe.edge)
    && (pe.ownerPrecedence != [] ==> !et.hierarchical)
    && (forall i :: 0 <= i < |pe.ownerPrecedence| ==> Declared(e, pe.ownerPrecedence[i]))
    && (forall i, j :: 0 <= i < j < |pe.ownerPrecedence| ==> pe.ownerPrecedence[i] != pe.ownerPrecedence[j])
  }

  ghost predicate FlatReferenceEdge(re: ReferenceEdge) {
    && Trim(re.edge) != "" && Trim(re.targetType) != "" && Trim(re.name) != ""
    && (re.direction == "out" || re.direction == "in") && IsAddressable(re.edge) && IsAddressable(re.name)
  }

  ghost predicate FlatEntityType(e: EgressSync, et: EntityType) {
    && (et.typeRef ==> |e.ontology| > 0)
    && (et.hierarchical ==> |et.parentEdges| == 1)
    && (forall k :: 0 <= k < |et.parentEdges| ==> FlatParentEdge(e, et, et.parentEdges[k]))
    && (forall k, l :: 0 <= k < l < |et.parentEdges| ==> et.parentEdges[k].edge != et.parentEdges[l].edge)
    && (forall k :: 0 <= k < |et.referenceEdges| ==> FlatReferenceEdge(et.referenceEdges[k]))
    && (forall k, l :: 0 <= k < l < |et.referenceEdges| ==> et.referenceEdges[k].name != et.referenceEdges[l].name)
    && (e.changeDelivery != "off" ==> et.referenceEdges == [])
  }

  ghost predicate FlatRelationship(e: EgressSync, r: RelationshipSync) {
    && Trim(r.pred) != "" && Trim(r.sourceType) != "" && Trim(r.targetType) != ""
    && Declared(e, r.sourceType) && Declared(e, r.targetType)
  }

  predicate SameTuple(r: RelationshipSync, q: RelationshipSync) {
    Trim(r.pred) == Trim(q.pred) && Trim(r.sourceType) == Trim(q.sourceType) && Trim(r.targetType) == Trim(q.targetType)
  }

  /** The image is pinned by a digest. */
  ghost predicate Pinned(image: string) {
    exists k :: 0 <= k <= |image| && HasPrefix(image[k..], "@sha256:")
  }

  ghost predicate FlatComponent(e: EgressSync) {
    && Trim(e.name) != "" && Trim(e.externalSystem) != ""
    && (exists j :: 0 <= j < |e.entities| && e.entities[j].name != "")
    && Pinned(if e.containerImage == "" then e.image else e.containerImage)
    && (forall j :: 0 <= j < |e.ontology| ==> Trim(e.ontology[j]) != "")
    && (forall j, k :: 0 <= j < k < |e.ontology| ==> Trim(e.ontology[j]) != Trim(e.ontology[k]))
    && (forall j :: 0 <= j < |e.entities| ==> FlatEntityType(e, e.entities[j]))
    && (forall k :: 0 <= k < |e.relationships| ==> FlatRelationship(e, e.relationships[k]))
    && (forall j, k :: 0 <= j < k < |e.relationships| ==> !SameTuple(e.relationships[j], e.relationships[k]))
    && (e.withdrawsRelationships ==> |e.relationships| > 0)
    && (e.changeDelivery == "" || e.changeDelivery == "events" || e.changeDelivery == "off")
    && (e.syncGeneration.Some? ==> e.syncGeneration.value > 0)
  }

  lemma DeclaredNames(e: EgressSync, name: string)
    ensures name in EntityTypeNames(e.entities) <==> Declared(e, name)
  {
  }

  lemma ParentEdgesAreFlat(e: EgressSync, et: EntityType, pe: ParentEdge)
    ensures ValidParentEdge(et, pe, EntityTypeNames(e.entities)) <==> FlatParentEdge(e, et, pe)
  {
    forall i | 0 <= i < |pe.ownerPrecedence|
      ensures pe.ownerPrecedence[i] in EntityTypeNames(e.entities) <==> Declared(e, pe.ownerPrecedence[i])
    {
      DeclaredNames(e, pe.ownerPrecedence[i]);
    }
  }

  lemma ParentListsAreFlat(e: EgressSync, et: EntityType)
    ensures ValidParentEdges(et, et.parentEdges, EntityTypeNames(e.entities)) <==>
            && (forall k :: 0 <= k < |et.parentEdges| ==> FlatParentEdge(e, et, et.parentEdges[k]))
            && (forall k, l :: 0 <= k < l < |et.parentEdges| ==> et.parentEdges[k].edge != et.parentEdges[l].edge)
  {
    forall k | 0 <= k < |et.parentEdges|
      ensures ValidParentEdge(et, et.parentEdges[k], EntityTypeNames(e.entities)) <==>
              FlatParentEdge(e, et, et.parentEdges[k])
    {
      ParentEdgesAreFlat(e, et, et.parentEdges[k]);
    }
    ParentNamesDistinct(et.parentEdges);
  }

  lemma ParentNamesDistinct(edges: seq<ParentEdge>)
    ensures Distinct(ParentNames(edges)) <==> forall k, l :: 0 <= k < l < |edges| ==> edges[k].edge != edges[l].edge
  {
    var names := ParentNames(edges);
    assert forall k :: 0 <= k < |edges| ==> names[k] == edges[k].edge;
  }

  lemma ReferenceEdgesAreFlat(re: ReferenceEdge)
    ensures ValidReferenceEdge(re) <==> FlatReferenceEdge(re)
  {
  }

  lemma ReferenceListsAreFlat(edges: seq<ReferenceEdge>)
    ensures ValidReferenceEdges(edges) <==>
            && (forall k :: 0 <= k < |edges| ==> FlatReferenceEdge(edges[k]))
            && (forall k, l :: 0 <= k < l < |edges| ==> edges[k].name != edges[l].name)
  {
    forall k | 0 <= k < |edges| ensures ValidReferenceEdge(edges[k]) <==> FlatReferenceEdge(edges[k]) {
      ReferenceEdgesAreFlat(edges[k]);
    }
    ReferenceNamesDistinct(edges);
  }

  lemma ReferenceNamesDistinct(edges: seq<ReferenceEdge>)
    ensures Distinct(ReferenceNames(edges)) <==> forall k, l :: 0 <= k < l < |edges| ==> edges[k].name != edges[l].name
  {
    var names := ReferenceNames(edges);
    assert forall k :: 0 <= k < |edges| ==> names[k] == edges[k].name;
  }

  lemma EntityTypesAreFlat(e: EgressSync, et: EntityType)
    requires e.changeDelivery != "off" ==> et.referenceEdges == []
    ensures ValidEntityType(et, e.ontology != [], EntityTypeNames(e.entities)) <==> FlatEntityType(e, et)
  {
    ParentListsAreFlat(e, et);
    ReferenceListsAreFlat(et.referenceEdges);
  }

  lemma RelationshipsAreFlat(e: EgressSync)
    ensures ValidRelationships(e.relationships, EntityTypeNames(e.entities)) <==>
            && (forall k :: 0 <= k < |e.relationships| ==> FlatRelationship(e, e.relationships[k]))
            && (forall j, k :: 0 <= j < k < |e.relationships| ==> !SameTuple(e.relationships[j], e.relationships[k]))
  {
    var rs := e.relationships;
    forall k | 0 <= k < |rs|
      ensures ValidRelationship(rs[k], EntityTypeNames(e.entities)) <==> FlatRelationship(e, rs[k]) {
      DeclaredNames(e, rs[k].sourceType);
      DeclaredNames(e, rs[k].targetType);
    }
    TuplesDistinct(rs);
  }

  lemma TuplesDistinct(rs: seq<RelationshipSync>)
    ensures Distinct(Tuples(rs)) <==> forall j, k :: 0 <= j < k < |rs| ==> !SameTuple(rs[j], rs[k])
  {
    var tuples := Tuples(rs);
    assert forall k :: 0 <= k < |rs| ==> tuples[k] == Tuple(rs[k]);
    forall j, k | 0 <= j < k < |rs| ensures tuples[j] == tuples[k] <==> SameTuple(rs[j], rs[k]) {
    }
  }

  lemma OntologiesAreFlat(anchors: seq<string>)
    ensures ValidOntology(anchors) <==>
            && (forall j :: 0 <= j < |anchors| ==> Trim(anchors[j]) != "")
            && (forall j, k :: 0 <= j < k < |anchors| ==> Trim(anchors[j]) != Trim(anchors[k]))
  {
    var trimmed := Anchors(anchors);
    assert forall k :: 0 <= k < |anchors| ==> trimmed[k] == Trim(anchors[k]);
  }

  lemma DeliveriesAreFlat(e: EgressSync)
    ensures ValidDelivery(e) <==>
            && (e.changeDelivery == "" || e.changeDelivery == "events" || e.changeDelivery == "off")
            && (e.syncGeneration.Some? ==> e.syncGeneration.value > 0)
            && (e.changeDelivery != "off" ==> forall j :: 0 <= j < |e.entities| ==> e.entities[j].referenceEdges == [])
  {
  }

  lemma NamesAreFlat(e: EgressSync)
    ensures EntityTypeNames(e.entities) != [] <==> exists j :: 0 <= j < |e.entities| && e.entities[j].name != ""
  {
    if EntityTypeNames(e.entities) != [] {
      var name := EntityTypeNames(e.entities)[0];
      assert name in EntityTypeNames(e.entities);
    }
    if j :| 0 <= j < |e.entities| && e.entities[j].name != "" {
      assert e.entities[j].name in EntityTypeNames(e.entities);
    }
  }

  lemma ComponentsAreFlat(e: EgressSync)
    ensures ValidComponent(e) <==> FlatComponent(e)
  {
    NamesAreFlat(e);
    OntologiesAreFlat(e.ontology);
    RelationshipsAreFlat(e);
    DeliveriesAreFlat(e);
    if e.changeDelivery != "off" ==> forall j :: 0 <= j < |e.entities| ==> e.entities[j].referenceEdges == [] {
      forall j | 0 <= j < |e.entities|
        ensures ValidEntityType(e.entities[j], e.ontology != [], EntityTypeNames(e.entities)) <==>
                FlatEntityType(e, e.entities[j])
      {
        EntityTypesAreFlat(e, e.entities[j]);
      }
    }
  }

  /** A section is valid if and only if every component meets every rule and no two share a name. */
  lemma SectionsAreValidExactly(syncs: seq<EgressSync>)
    ensures ValidSection(syncs) <==>
            && (forall i :: 0 <= i < |syncs| ==> FlatComponent(syncs[i]))
            && (forall i, j :: 0 <= i < j < |syncs| ==> syncs[i].name != syncs[j].name)
  {
    forall i | 0 <= i < |syncs| ensures ValidComponent(syncs[i]) <==> FlatComponent(syncs[i]) {
      ComponentsAreFlat(syncs[i]);
    }
    var names := ComponentNames(syncs);
    assert forall k :: 0 <= k < |syncs| ==> names[k] == syncs[k].name;
  }

  /** The endpoint types come in declared order, the source before the target, each where it first occurs. */
  lemma EndpointsComeInOrder(rs: seq<RelationshipSync>, r: RelationshipSync, xs: seq<string>, x: string)
    ensures Endpoints([]) == [] && Endpoints(rs + [r]) == Endpoints(rs) + [r.sourceType, r.targetType]
    ensures Dedup([]) == [] && Dedup(xs + [x]) == Dedup(xs) + if x == "" || x in xs then [] else [x]
  {
    assert (rs + [r])[..|rs|] == rs && (xs + [x])[..|xs|] == xs;
    DedupMeaning(xs);
  }

  /** The walk edge is the one parent edge of a hierarchical type, pointing out unless it says in. */
  lemma WalkEdgesAre(et: EntityType)
    ensures HierarchyEdge(et).Some? <==> et.hierarchical && |et.parentEdges| == 1
    ensures HierarchyEdge(et).Some? ==>
              var edge, declared := HierarchyEdge(et).value, et.parentEdges[0];
              && edge.edge == declared.edge && edge.ownerPrecedence == declared.ownerPrecedence
              && edge.direction == if declared.direction == "" then "out" else declared.direction
  {
  }
}
