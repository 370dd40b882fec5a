/**
 The egress section of a kit manifest: the validators, each a loop with its
 seen-set, proved against a declarative reading of the section, and what an
 accepted section guarantees to the code that walks it.
 */
module EgressManifest {
  import opened Prelude
  import opened Text
  import opened EdgeNames

  datatype ParentEdge = ParentEdge(edge: string, direction: string, ownerPrecedence: seq<string>)
  datatype ReferenceEdge = ReferenceEdge(edge: string, direction: string, targetType: string, name: string)
  datatype EntityType = EntityType(name: string, hierarchical: bool, typeRef: bool, parentEdges: seq<ParentEdge>,
                                   referenceEdges: seq<ReferenceEdge>)
  datatype RelationshipSync = RelationshipSync(pred: string, sourceType: string, targetType: string)
  datatype EgressSync = EgressSync(
    name: string,
    externalSystem: string,
    image: string,
    containerImage: string,
    entities: seq<EntityType>,
    ontology: seq<string>,
    relationships: seq<RelationshipSync>,
    withdrawsRelationships: bool,
    changeDelivery: string,
    syncGeneration: Option<int>)

  const OUT := "out"
  const IN := "in"

  function NormalizeDirection(d: string): string {
    if d == "" then OUT else d
  }

  predicate ValidDirection(d: string) {
    NormalizeDirection(d) == OUT || NormalizeDirection(d) == IN
  }

  function EffectiveImage(e: EgressSync): string {
    if e.containerImage != "" then e.containerImage else e.image
  }

  function EffectiveChangeDelivery(e: EgressSync): string {
    if e.changeDelivery == "" then "events" else e.changeDelivery
  }

  predicate Contains(s: string, part: string) {
    exists i :: 0 <= i <= |s| && HasPrefix(s[i..], part)
  }

  predicate Blank(s: string) {
    Trim(s) == ""
  }

  /** `EntityTypeNames`: the non-empty names, in push order. */
  function EntityTypeNames(entities: seq<EntityType>): (names: seq<string>)
    ensures forall n :: n in names <==> n != "" && exists i :: 0 <= i < |entities| && entities[i].name == n
  {
    if entities == [] then []
    else
      var k := |entities| - 1;
      var names := EntityTypeNames(entities[..k]);
      assert forall i :: 0 <= i < k ==> entities[..k][i] == entities[i];
      if entities[k].name != "" then names + [entities[k].name] else names
  }

  /** Names come in push order: each non-empty one directly after those of the entries before it. */
  lemma {:induction false} NamesAreInPushOrder(entities: seq<EntityType>, i: nat)
    requires i < |entities|
    ensures EntityTypeNames(entities[..i + 1]) == EntityTypeNames(entities[..i])
                                                  + if entities[i].name != "" then [entities[i].name] else []
    ensures EntityTypeNames(entities[..i + 1]) <= EntityTypeNames(entities)
    decreases |entities|
  {
    assert entities[..i + 1][..i] == entities[..i];
    var n := |entities| - 1;
    if i == n {
      assert entities[..i + 1] == entities;
    } else {
      NamesAreInPushOrder(entities[..n], i);
      assert entities[..n][..i + 1] == entities[..i + 1];
    }
  }

  // -------------------------------------------------- the declarative reading

  ghost function ReferenceNames(edges: seq<ReferenceEdge>): seq<string> {
    seq(|edges|, i requires 0 <= i < |edges| => edges[i].name)
  }

  ghost function ParentNames(edges: seq<ParentEdge>): seq<string> {
    seq(|edges|, i requires 0 <= i < |edges| => edges[i].edge)
  }

  ghost function Anchors(anchors: seq<string>): seq<string> {
    seq(|anchors|, i requires 0 <= i < |anchors| => Trim(anchors[i]))
  }

  ghost function Tuples(rs: seq<RelationshipSync>): seq<(string, string, string)> {
    seq(|rs|, i requires 0 <= i < |rs| => Tuple(rs[i]))
  }

  ghost function ComponentNames(syncs: seq<EgressSync>): seq<string> {
    seq(|syncs|, i requires 0 <= i < |syncs| => syncs[i].name)
  }

  ghost predicate ValidOwnerPrecedence(et: EntityType, pe: ParentEdge, declared: seq<string>) {
    pe.ownerPrecedence != [] ==>
      && !et.hierarchical
      && (forall i :: 0 <= i < |pe.ownerPrecedence| ==> pe.ownerPrecedence[i] in declared)
      && Distinct(pe.ownerPrecedence)
  }

  ghost predicate ValidParentEdge(et: EntityType, pe: ParentEdge, declared: seq<string>) {
    !Blank(pe.edge) && ValidDirection(pe.direction) && ValidOwnerPrecedence(et, pe, declared) && IsAddressable(pe.edge)
  }

  predicate ValidReferenceEdge(re: ReferenceEdge) {
    && !Blank(re.edge) && !Blank(re.targetType) && !Blank(re.name) && re.direction != ""
    && ValidDirection(re.direction) && IsAddressable(re.edge) && IsAddressable(re.name)
  }

  ghost predicate ValidReferenceEdges(edges: seq<ReferenceEdge>) {
    && (forall i :: 0 <= i < |edges| ==> ValidReferenceEdge(edges[i]))
    && Distinct(ReferenceNames(edges))
  }

  ghost predicate ValidParentEdges(et: EntityType, edges: seq<ParentEdge>, declared: seq<string>) {
    && (forall i :: 0 <= i < |edges| ==> ValidParentEdge(et, edges[i], declared))
    && Distinct(ParentNames(edges))
  }

  ghost predicate ValidEntityType(et: EntityType, hasOntologyLane: bool, declared: seq<string>) {
    && (et.typeRef ==> hasOntologyLane)
    && (et.hierarchical ==> |et.parentEdges| == 1)
    && ValidParentEdges(et, et.parentEdges, declared)
    && ValidReferenceEdges(et.referenceEdges)
  }

  ghost predicate ValidOntology(anchors: seq<string>) {
    && (forall i :: 0 <= i < |anchors| ==> !Blank(anchors[i]))
    && Distinct(Anchors(anchors))
  }

  function Tuple(r: RelationshipSync): (string, string, string) {
    (Trim(r.pred), Trim(r.sourceType), Trim(r.targetType))
  }

  predicate ValidRelationship(r: RelationshipSync, declared: seq<string>) {
    !Blank(r.pred) && !Blank(r.sourceType) && !Blank(r.targetType) && r.sourceType in declared
    && r.targetType in declared
  }

  ghost predicate ValidRelationships(rs: seq<RelationshipSync>, declared: seq<string>) {
    && (forall i :: 0 <= i < |rs| ==> ValidRelationship(rs[i], declared))
    && Distinct(Tuples(rs))
  }

  ghost predicate ValidDelivery(e: EgressSync) {
    && (e.changeDelivery == "" || e.changeDelivery == "events" || e.changeDelivery == "off")
    && (e.syncGeneration.Some? ==> e.syncGeneration.value >= 1)
    && (EffectiveChangeDelivery(e) != "off" ==> forall j :: 0 <= j < |e.entities| ==>
                                                              e.entities[j].referenceEdges == [])
  }

  /** One component, on its own. */
  ghost predicate ValidComponent(e: EgressSync) {
    && !Blank(e.name) && !Blank(e.externalSystem)
    && EntityTypeNames(e.entities) != []
    && Contains(EffectiveImage(e), "@sha256:")
    && ValidOntology(e.ontology)
    && (forall j :: 0 <= j < |e.entities| ==>
                      ValidEntityType(e.entities[j], e.ontology != [], EntityTypeNames(e.entities)))
    && ValidRelationships(e.relationships, EntityTypeNames(e.entities))
    && (e.withdrawsRelationships ==> e.relationships != [])
    && ValidDelivery(e)
  }

  ghost predicate AllComponentsValid(syncs: seq<EgressSync>) {
    forall i :: 0 <= i < |syncs| ==> ValidComponent(syncs[i])
  }

  /** The whole section: valid components with distinct names. */
  ghost predicate ValidSection(syncs: seq<EgressSync>) {
    AllComponentsValid(syncs) && Distinct(ComponentNames(syncs))
  }

  // -------------------------------------------------- the validators

  /** The seen-set of a validator holds its first `n` keys, none of them twice. */
  ghost predicate Seen<K(!new)>(seen: set<K>, keys: seq<K>, n: nat) {
    n <= |keys| && Distinct(keys[..n]) && forall x :: x in seen <==> x in keys[..n]
  }

  lemma SeenAll<K(!new)>(seen: set<K>, keys: seq<K>)
    requires Seen(seen, keys, |keys|)
    ensures Distinct(keys)
  {
    assert keys[..|keys|] == keys;
  }

  /** One turn of a seen-set: a repeated key refutes the whole list, a new one extends what was seen. */
  method Note<K(!new, ==)>(seen: set<K>, key: K, n: nat, ghost keys: seq<K>) returns (fresh': bool, seen': set<K>)
    requires n < |keys| && keys[n] == key && Seen(seen, keys, n)
    ensures fresh' ==> Seen(seen', keys, n + 1)
    ensures !fresh' ==> !Distinct(keys[..n + 1]) && !Distinct(keys)
  {
    fresh', seen' := key !in seen, seen + {key};
    if fresh' {
      assert keys[..n + 1] == keys[..n] + [key];
    } else {
      ghost var k :| 0 <= k < n && keys[..n][k] == key;
      assert keys[k] == keys[n];
      assert keys[..n + 1][k] == keys[..n + 1][n];
    }
  }

  /** `validateOwnerPrecedence`. */
  method CheckOwnerPrecedence(et: EntityType, pe: ParentEdge, declared: seq<string>) returns (ok: bool)
    ensures ok <==> ValidOwnerPrecedence(et, pe, declared)
  {
    if pe.ownerPrecedence == [] {
      return true;
    }
    if et.hierarchical {
      return false;
    }
    var seen: set<string> := {};
    for i := 0 to |pe.ownerPrecedence|
      invariant Seen(seen, pe.ownerPrecedence, i)
      invariant forall k :: 0 <= k < i ==> pe.ownerPrecedence[k] in declared
    {
      if pe.ownerPrecedence[i] !in declared {
        return false;
      }
      ok, seen := Note(seen, pe.ownerPrecedence[i], i, pe.ownerPrecedence);
      if !ok {
        return;
      }
    }
    SeenAll(seen, pe.ownerPrecedence);
    return true;
  }

  /** One entry of `validateReferenceEdges`. */
  method CheckReferenceEdge(re: ReferenceEdge) returns (ok: bool)
    ensures ok <==> ValidReferenceEdge(re)
  {
    if Blank(re.edge) || Blank(re.targetType) || Blank(re.name) || re.direction == "" {
      return false;
    }
    if !ValidDirection(re.direction) {
      return false;
    }
    ok := CheckAddressable(re.edge);
    if ok {
      ok := CheckAddressable(re.name);
    }
  }

  /** `validateReferenceEdges`. */
  method CheckReferenceEdges(edges: seq<ReferenceEdge>) returns (ok: bool)
    ensures ok <==> ValidReferenceEdges(edges)
  {
    ghost var keys := ReferenceNames(edges);
    var names: set<string> := {};
    for i := 0 to |edges|
      invariant Seen(names, keys, i)
      invariant forall k :: 0 <= k < i ==> ValidReferenceEdge(edges[k])
    {
      ok := CheckReferenceEdge(edges[i]);
      if !ok {
        return;
      }
      ok, names := Note(names, edges[i].name, i, keys);
      if !ok {
        return;
      }
    }
    SeenAll(names, keys);
    return true;
  }

  /** One entry of the parent-edge loop, apart from its repetition. */
  method CheckParentEdge(et: EntityType, pe: ParentEdge, declared: seq<string>) returns (ok: bool)
    ensures ok <==> ValidParentEdge(et, pe, declared)
  {
    if Blank(pe.edge) {
      return false;
    }
    if !ValidDirection(pe.direction) {
      return false;
    }
    ok := CheckOwnerPrecedence(et, pe, declared);
    if ok {
      ok := CheckAddressable(pe.edge);
    }
  }

  /** The parent-edge loop of `validateEgressEntityType`. */
  method CheckParentEdges(et: EntityType, declared: seq<string>) returns (ok: bool)
    ensures ok <==> ValidParentEdges(et, et.parentEdges, declared)
  {
    var edges := et.parentEdges;
    ghost var keys := ParentNames(edges);
    var seen: set<string> := {};
    for i := 0 to |edges|
      invariant Seen(seen, keys, i)
      invariant forall k :: 0 <= k < i ==> ValidParentEdge(et, edges[k], declared)
    {
      ok := CheckParentEdge(et, edges[i], declared);
      if !ok {
        return;
      }
      ok, seen := Note(seen, edges[i].edge, i, keys);
      if !ok {
        return;
      }
    }
    SeenAll(seen, keys);
    return true;
  }

  /** `validateEgressEntityType`. */
  method CheckEntityType(et: EntityType, hasOntologyLane: bool, declared: seq<string>) returns (ok: bool)
    ensures ok <==> ValidEntityType(et, hasOntologyLane, declared)
  {
    if et.typeRef && !hasOntologyLane {
      return false;
    }
    if et.hierarchical && et.parentEdges == [] {
      return false;
    }
    if et.hierarchical && |et.parentEdges| > 1 {
      return false;
    }
    ok := CheckParentEdges(et, declared);
    if ok {
      ok := CheckReferenceEdges(et.referenceEdges);
    }
  }

  /** `validateEgressOntologySync`. */
  method CheckOntology(anchors: seq<string>) returns (ok: bool)
    ensures ok <==> ValidOntology(anchors)
  {
    ghost var keys := Anchors(anchors);
    var seen: set<string> := {};
    for i := 0 to |anchors|
      invariant Seen(seen, keys, i)
      invariant forall k :: 0 <= k < i ==> !Blank(anchors[k])
    {
      var anchor := Trim(anchors[i]);
      if anchor == "" {
        return false;
      }
      ok, seen := Note(seen, anchor, i, keys);
      if !ok {
        return;
      }
    }
    SeenAll(seen, keys);
    return true;
  }

  /** `validateEgressRelationshipSync`. */
  method CheckRelationships(rs: seq<RelationshipSync>, declared: seq<string>) returns (ok: bool)
    ensures ok <==> ValidRelationships(rs, declared)
  {
    ghost var keys := Tuples(rs);
    var seen: set<(string, string, string)> := {};
    for i := 0 to |rs|
      invariant Seen(seen, keys, i)
      invariant forall k :: 0 <= k < i ==> ValidRelationship(rs[k], declared)
    {
      if !ValidRelationship(rs[i], declared) {
        return false;
      }
      ok, seen := Note(seen, Tuple(rs[i]), i, keys);
      if !ok {
        return;
      }
    }
    SeenAll(seen, keys);
    return true;
  }

  /** `validateEgressDelivery`. */
  method CheckDelivery(e: EgressSync) returns (ok: bool)
    ensures ok <==> ValidDelivery(e)
  {
    if e.changeDelivery != "" && e.changeDelivery != "events" && e.changeDelivery != "off" {
      return false;
    }
    if e.syncGeneration.Some? && e.syncGeneration.value < 1 {
      return false;
    }
    if EffectiveChangeDelivery(e) != "off" {
      for j := 0 to |e.entities|
        invariant forall k :: 0 <= k < j ==> e.entities[k].referenceEdges == []
      {
        if e.entities[j].referenceEdges != [] {
          return false;
        }
      }
    }
    return true;
  }

  /** One component of `validateEgressSyncs`, after its name. */
  method CheckComponent(e: EgressSync) returns (ok: bool)
    requires !Blank(e.name)
    ensures ok <==> ValidComponent(e)
  {
    var names := EntityTypeNames(e.entities);
    if Blank(e.externalSystem) || names == [] {
      return false;
    }
    if EffectiveImage(e) == "" || !Contains(EffectiveImage(e), "@sha256:") {
      assert !ValidComponent(e);
      return false;
    }
    ok := CheckOntology(e.ontology);
    if !ok {
      return;
    }
    for j := 0 to |e.entities|
      invariant forall k :: 0 <= k < j ==> ValidEntityType(e.entities[k], e.ontology != [], names)
    {
      ok := CheckEntityType(e.entities[j], e.ontology != [], names);
      if !ok {
        return;
      }
    }
    ok := CheckRelationships(e.relationships, names);
    if !ok {
      return;
    }
    if e.withdrawsRelationships && e.relationships == [] {
      return false;
    }
    ok := CheckDelivery(e);
  }

  /** `validateEgressSyncs`: the index of the first component that makes the section invalid, if any. */
  method ValidateEgressSyncs(syncs: seq<EgressSync>) returns (bad: Option<nat>)
    ensures bad.None? <==> ValidSection(syncs)
    ensures bad.Some? ==>
              bad.value < |syncs| && ValidSection(syncs[..bad.value]) && !ValidSection(syncs[..bad.value + 1])
  {
    ghost var keys := ComponentNames(syncs);
    var seen: set<string> := {};
    for i := 0 to |syncs|
      invariant Seen(seen, keys, i)
      invariant AllComponentsValid(syncs[..i])
    {
      PrefixSection(syncs, i);
      PrefixSection(syncs, i + 1);
      if Blank(syncs[i].name) {
        return Some(i);
      }
      var fresh';
      fresh', seen := Note(seen, syncs[i].name, i, keys);
      if !fresh' {
        return Some(i);
      }
      var ok := CheckComponent(syncs[i]);
      if !ok {
        return Some(i);
      }
    }
    SeenAll(seen, keys);
    assert syncs[..|syncs|] == syncs;
    return None;
  }

  lemma SnocComponents(front: seq<EgressSync>, last: EgressSync)
    ensures AllComponentsValid(front + [last]) <==> AllComponentsValid(front) && ValidComponent(last)
  {
    var all := front + [last];
    assert forall i :: 0 <= i < |front| ==> all[i] == front[i];
    assert all[|front|] == last;
  }

  lemma PrefixSection(syncs: seq<EgressSync>, n: nat)
    requires n <= |syncs|
    ensures ComponentNames(syncs[..n]) == ComponentNames(syncs)[..n]
    ensures !ValidSection(syncs[..n]) ==> !ValidSection(syncs)
    ensures n > 0 ==> (AllComponentsValid(syncs[..n]) <==>
                       AllComponentsValid(syncs[..n - 1]) && ValidComponent(syncs[n - 1]))
  {
    if n > 0 {
      SnocComponents(syncs[..n - 1], syncs[n - 1]);
      assert syncs[..n - 1] + [syncs[n - 1]] == syncs[..n];
    }
    if ValidSection(syncs) {
      forall i | 0 <= i < n ensures ValidComponent(syncs[..n][i]) {
        assert syncs[..n][i] == syncs[i];
      }
    }
  }

  // -------------------------------------------------- what an accepted section guarantees

  /** `HierarchyEdge`: the edge the level walk traverses, with its direction resolved. */
  function HierarchyEdge(et: EntityType): Option<ParentEdge> {
    if !et.hierarchical || |et.parentEdges| != 1 then None
    else Some(et.parentEdges[0].(direction := NormalizeDirection(et.parentEdges[0].direction)))
  }

  /**
   Every hierarchical type of an accepted section resolves its one walk edge, with a direction and an
   addressable name.
   */
  lemma HierarchicalTypesResolveTheirEdge(syncs: seq<EgressSync>, i: nat, j: nat)
    requires ValidSection(syncs) && i < |syncs| && j < |syncs[i].entities|
    ensures var et := syncs[i].entities[j];
            && (et.hierarchical <==> HierarchyEdge(et).Some?)
            && (et.hierarchical ==>
                  var edge := HierarchyEdge(et).value;
                  && (edge.direction == OUT || edge.direction == IN) && IsAddressable(edge.edge)
                  && edge.ownerPrecedence == []
                  && forall k :: 0 <= k < |et.parentEdges| ==> et.parentEdges[k].edge == edge.edge)
            && (forall k, l :: 0 <= k < l < |et.parentEdges| ==> et.parentEdges[k].edge != et.parentEdges[l].edge)
            && (forall k :: 0 <= k < |et.parentEdges| ==> Sanitized(et.parentEdges[k].edge) == et.parentEdges[k].edge)
  {
    var e := syncs[i];
    var et := e.entities[j];
    assert ValidComponent(e);
    assert ValidEntityType(et, e.ontology != [], EntityTypeNames(e.entities));
    assert forall k :: 0 <= k < |et.parentEdges| ==> ParentNames(et.parentEdges)[k] == et.parentEdges[k].edge;
    forall k | 0 <= k < |et.parentEdges| ensures Sanitized(et.parentEdges[k].edge) == et.parentEdges[k].edge {
      assert ValidParentEdge(et, et.parentEdges[k], EntityTypeNames(e.entities));
      AddressableIffFixedPoint(et.parentEdges[k].edge);
    }
  }

  /** The endpoint types of the relationship lane, in order, by what they are. */
  function Endpoints(rs: seq<RelationshipSync>): seq<string> {
    if rs == [] then []
    else Endpoints(rs[..|rs| - 1]) + [rs[|rs| - 1].sourceType, rs[|rs| - 1].targetType]
  }

  /** The distinct non-empty entries of a list, where each first occurs. */
  function Dedup(xs: seq<string>): seq<string> {
    if xs == [] then []
    else
      var n := |xs| - 1;
      var rest := Dedup(xs[..n]);
      if xs[n] == "" || xs[n] in rest then rest else rest + [xs[n]]
  }

  /** The `add` of `RelationshipEntityTypes`. */
  method AddType(seen: set<string>, out: seq<string>, t: string, ghost xs: seq<string>)
    returns (seen': set<string>, out': seq<string>)
    requires out == Dedup(xs) && seen == set x | x in out
    ensures out' == Dedup(xs + [t]) && seen' == set x | x in out'
  {
    assert (xs + [t])[..|xs|] == xs;
    seen', out' := seen, out;
    if t != "" && t !in seen {
      seen', out' := seen + {t}, out + [t];
    }
  }

  /** `RelationshipEntityTypes`. */
  method RelationshipEntityTypes(rs: seq<RelationshipSync>) returns (out: seq<string>)
    ensures out == Dedup(Endpoints(rs))
  {
    out := [];
    var seen: set<string> := {};
    for i := 0 to |rs|
      invariant out == Dedup(Endpoints(rs[..i]))
      invariant seen == set x | x in out
    {
      ghost var before := Endpoints(rs[..i]);
      seen, out := AddType(seen, out, rs[i].sourceType, before);
      seen, out := AddType(seen, out, rs[i].targetType, before + [rs[i].sourceType]);
      assert rs[..i + 1][..i] == rs[..i];
      assert Endpoints(rs[..i + 1]) == before + [rs[i].sourceType] + [rs[i].targetType];
    }
    assert rs[..|rs|] == rs;
  }

  lemma {:induction false} DedupMeaning(xs: seq<string>)
    ensures Distinct(Dedup(xs))
    ensures forall x :: x in Dedup(xs) <==> x in xs && x != ""
  {
    if xs != [] {
      DedupMeaning(xs[..|xs| - 1]);
      assert xs == xs[..|xs| - 1] + [xs[|xs| - 1]];
    }
  }

  lemma {:induction false} EndpointsMeaning(rs: seq<RelationshipSync>)
    ensures forall x :: x in Endpoints(rs) <==>
                        exists i :: 0 <= i < |rs| && (rs[i].sourceType == x || rs[i].targetType == x)
  {
    if rs != [] {
      var n := |rs| - 1;
      EndpointsMeaning(rs[..n]);
      assert forall i :: 0 <= i < n ==> rs[..n][i] == rs[i];
    }
  }

  /** In an accepted section the endpoint types are distinct, declared, and exactly the ones the lane names. */
  lemma EndpointTypesAreDeclared(syncs: seq<EgressSync>, i: nat)
    requires ValidSection(syncs) && i < |syncs|
    ensures var e := syncs[i];
            var types := Dedup(Endpoints(e.relationships));
            && Distinct(types)
            && (forall x :: x in types ==> x in EntityTypeNames(e.entities))
            && (forall k :: 0 <= k < |e.relationships| ==>
                              e.relationships[k].sourceType in types && e.relationships[k].targetType in types)
  {
    var e := syncs[i];
    assert ValidComponent(e);
    DedupMeaning(Endpoints(e.relationships));
    EndpointsMeaning(e.relationships);
    forall k | 0 <= k < |e.relationships|
      ensures e.relationships[k].sourceType in Dedup(Endpoints(e.relationships))
              && e.relationships[k].targetType in Dedup(Endpoints(e.relationships)) {
      assert ValidRelationship(e.relationships[k], EntityTypeNames(e.entities));
    }
  }
}
