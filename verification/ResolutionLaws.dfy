/**
 Argument resolution and identifier extraction, spelled out field by field:
 what counts as a placeholder, what each argument field is filled with, which
 places of a document are read and in which order.
 */
module ResolutionLaws {
  import opened Prelude
  import opened Text
  import opened ArgumentResolution
  import opened Extraction

  // -------------------------------------------------- placeholders

  /** A letter as the prefix comparison sees it. */
  lemma LettersAreCaseless(c: char)
    ensures 'A' <= c <= 'Z' ==> LowerChar(c) as int == c as int + 32
    ensures !('A' <= c <= 'Z') && c != '\U{130}' ==> LowerChar(c) == c
    ensures LowerChar(c) == '<' <==> c == '<'
  {
  }

  /** One of the phrases a planner writes, in any case. */
  predicate NamesAStep(s: string) {
    || HasPrefix(Lower(s), "<from step") || HasPrefix(Lower(s), "<from prior") || HasPrefix(Lower(s), "<result from")
    || HasPrefix(Lower(s), "<entity_id from") || HasPrefix(Lower(s), "<id from")
  }

  /** A placeholder stands in angle brackets, or starts with a bracket and one of the phrases. */
  lemma PlaceholdersAre(s: string)
    ensures IsPlaceholder(s) <==> s != "" && s[0] == '<' && (s[|s| - 1] == '>' || NamesAStep(s))
  {
    if s != "" {
      LettersAreCaseless(s[0]);
      assert Lower(s)[0] == LowerChar(s[0]);
    }
  }

  // -------------------------------------------------- what a field is filled with

  /** The kind of identifier each ID argument takes. */
  function FieldTakes(field: string): Option<IdKind> {
    if || field == "entity_id" || field == "start_entity_id" || field == "source_id"
       || field == "source_entity_id" || field == "target_entity_id" then Some(Entity)
    else if field == "document_id" then Some(Document)
    else if field == "relationship_id" then Some(Relationship)
    else None
  }

  /** The ID arguments that are filled without being asked. */
  predicate IsAutomatic(field: string) {
    field == "entity_id" || field == "start_entity_id" || field == "source_id" || field == "document_id"
  }

  lemma FieldsTake(field: string)
    ensures KindOfField(field) == FieldTakes(field)
    ensures field in AUTO_FIELDS <==> IsAutomatic(field)
  {
  }

  /** A placeholder in an ID argument gives way to the first identifier of the argument's kind that was extracted. */
  lemma PlaceholdersGiveWay(args: Args, ids: seq<Identifier>, target: ToolSchema, field: string)
    requires FieldTakes(field).Some? && field in args && args[field].Str? && IsPlaceholder(args[field].s)
    requires FirstOfKind(ids, FieldTakes(field).value).Some?
             && FirstOfKind(ids, FieldTakes(field).value).value.value != ""
    ensures var out := Resolved(args, ids, target);
            field in out && out[field] == Str(FirstOfKind(ids, FieldTakes(field).value).value.value)
  {
    NamedGivesWay(field, args[field], ids);
    FieldsTake(field);
    AutoIsOfTheFieldsKind(field, ids);
  }

  lemma NamedGivesWay(field: string, v: Value, ids: seq<Identifier>)
    requires FieldTakes(field).Some? && v.Str? && IsPlaceholder(v.s)
    requires FirstOfKind(ids, FieldTakes(field).value).Some?
             && FirstOfKind(ids, FieldTakes(field).value).value.value != ""
    ensures AfterNamed(field, v, ids) == Str(FirstOfKind(ids, FieldTakes(field).value).value.value)
  {
  }

  /** An entity_type or label placeholder gives way to that of the first entity, where it has one. */
  lemma DescriptionsGiveWay(args: Args, ids: seq<Identifier>, target: ToolSchema, field: string)
    requires (field == "entity_type" || field == "label") && field in args && args[field].Str?
             && IsPlaceholder(args[field].s)
    requires FirstOfKind(ids, Entity).Some?
    ensures var e := FirstOfKind(ids, Entity).value;
            var text := if field == "label" then e.caption else e.entityType;
            field in Resolved(args, ids, target) && (text != "" ==> Resolved(args, ids, target)[field] == Str(text))
  {
    FieldsTake(field);
  }

  /** An empty automatic argument is filled, and a missing one is added where the tool may get it. */
  lemma GapsAreFilled(args: Args, ids: seq<Identifier>, target: ToolSchema, field: string)
    requires IsAutomatic(field) && FirstOfKind(ids, FieldTakes(field).value).Some?
    ensures var out, value := Resolved(args, ids, target), Str(FirstOfKind(ids, FieldTakes(field).value).value.value);
            && (field in args && args[field] == Str("") ==> field in out && out[field] == value)
            && (field !in args ==>
                  if HasPrefix(target.name, "kg_") && field !in target.declared then field !in out
                  else field in out && out[field] == value)
  {
    FieldsTake(field);
    AutoIs(field, ids);
    PlaceholdersAre("");
  }

  lemma AutoIs(field: string, ids: seq<Identifier>)
    requires IsAutomatic(field)
    ensures AutoSource(field, ids) == FirstOfKind(ids, FieldTakes(field).value)
  {
  }

  /** A tool whose name starts with kg_ gets no key its schema does not declare. */
  lemma KgToolsGetDeclaredKeysOnly(args: Args, ids: seq<Identifier>, target: ToolSchema)
    requires HasPrefix(target.name, "kg_")
    ensures Resolved(args, ids, target).Keys <= args.Keys + target.declared
  {
    PlatformToolsGetDeclaredKeysOnly(args, ids, target);
  }

  /** A value that is neither empty nor a placeholder, and any value that is no string, is kept. */
  lemma OtherValuesAreKept(args: Args, ids: seq<Identifier>, target: ToolSchema, field: string)
    requires field in args && (args[field].NotString? || (args[field].s != "" && !IsPlaceholder(args[field].s)))
    ensures field in Resolved(args, ids, target) && Resolved(args, ids, target)[field] == args[field]
  {
    OnlyPlaceholdersChange(args, ids, target, field);
  }

  // -------------------------------------------------- which places are read

  /** The names and the order of the places the scan reads. */
  lemma PlacesAre()
    ensures ALLOW_FIELDS == ["entity_id", "id", "document_id", "source_id", "start_entity_id",
                             "source_entity_id", "target_entity_id", "representative_entity"]
    ensures ARRAY_KEY_PRIORITY == ["results", "entities", "nodes", "documents", "passages",
                                   "relationships", "clusters", "items", "matches"]
    ensures LIST_FIELD == "matched_entities"
  {
  }

  /**
   The identifier a field of an object stands for: a document's under document_id, an entity's under any other
   name.
   */
  function ReadAs(m: Object, field: string, described: bool): Identifier {
    Identifier(StringField(m, field), if field == "document_id" then Document else Entity,
               if described then StringField(m, "entity_type") else "", if described then StringField(m, "label")
               else "")
  }

  lemma FieldsAreReadAs(m: Object, field: string, described: bool)
    ensures OneField(m, field, described) ==
            if StringField(m, field) == ""
               || IsPlaceholder(StringField(m, field)) then [] else [ReadAs(m, field, described)]
  {
  }

  /** An identifier in an allow-listed field at the top of a document is found, of the kind its name says. */
  lemma TopFieldsAreFound(obj: Object, order: KeyOrder, field: string)
    requires ListsKeys(order) && field in ALLOW_FIELDS
    requires StringField(obj, field) != "" && !IsPlaceholder(StringField(obj, field))
    ensures ReadAs(obj, field, false) in Scan(obj, order)
  {
    FieldsAreReadAs(obj, field, false);
    assert ReadAt(obj, ALLOW_FIELDS, false, ReadAs(obj, field, false));
    ScanFindsTheLocatedOnes(obj, order, ReadAs(obj, field, false));
  }

  /** One in an item of the array that is scanned is found with the item's type and label. */
  lemma ItemFieldsAreFound(m: Object, order: KeyOrder, field: string)
    requires ListsKeys(order) && field in ALLOW_FIELDS
    requires StringField(m, field) != "" && !IsPlaceholder(StringField(m, field))
    ensures ReadAs(m, field, true) in ItemIds(m, order)
  {
    FieldsAreReadAs(m, field, true);
    assert ReadAt(m, ALLOW_FIELDS, true, ReadAs(m, field, true));
    ItemIdsMeaning(m, order, ReadAs(m, field, true));
  }

  /** The bare strings of an item's matched_entities are entities, and so are the fields of objects in its arrays. */
  lemma NestedAreFound(m: Object, order: KeyOrder, key: string, item: Json)
    requires ListsKeys(order) && key in m && item in ArrayField(m, key)
    ensures key == "matched_entities" && item.JString? && item.s != "" && !IsPlaceholder(item.s) ==>
              Identifier(item.s, Entity, "", "") in ItemIds(m, order)
    ensures item.JObject? ==>
              forall field :: field in ALLOW_FIELDS && StringField(item.fields, field) != ""
                              && !IsPlaceholder(StringField(item.fields, field)) ==>
                                ReadAs(item.fields, field, true) in ItemIds(m, order)
  {
    if key == "matched_entities" && item.JString? && item.s != "" && !IsPlaceholder(item.s) {
      var id := Identifier(item.s, Entity, "", "");
      assert ListedAt(ArrayField(m, LIST_FIELD), Entity, id);
      ItemIdsMeaning(m, order, id);
    }
    if item.JObject? {
      forall field | field in ALLOW_FIELDS && StringField(item.fields, field) != ""
                     && !IsPlaceholder(StringField(item.fields, field))
        ensures ReadAs(item.fields, field, true) in ItemIds(m, order)
      {
        var id := ReadAs(item.fields, field, true);
        FieldsAreReadAs(item.fields, field, true);
        assert ReadAt(item.fields, ALLOW_FIELDS, true, id);
        assert NestedAt(ArrayField(m, key), id);
        ItemIdsMeaning(m, order, id);
      }
    }
  }

  /** A non-empty array whose first element is an object. */
  predicate IsArrayOfObjects(m: Object, key: string) {
    key in m && m[key].JArray? && |m[key].items| > 0 && m[key].items[0].JObject?
  }

  /** The array scanned is that of the first key, in the order given, that holds objects. */
  lemma {:induction false} FirstArrayIsFirst(m: Object, keys: seq<string>, i: nat)
    requires i < |keys| && IsArrayOfObjects(m, keys[i]) && forall j :: 0 <= j < i ==> !IsArrayOfObjects(m, keys[j])
    ensures FirstArray(m, keys) == m[keys[i]].items
  {
    if i > 0 {
      assert !IsArrayOfObjects(m, keys[0]);
      FirstArrayIsFirst(m, keys[1..], i - 1);
    }
  }

  lemma {:induction false} NoArrayIsScanned(m: Object, keys: seq<string>)
    requires forall j :: 0 <= j < |keys| ==> !IsArrayOfObjects(m, keys[j])
    ensures FirstArray(m, keys) == []
  {
    if keys != [] {
      assert !IsArrayOfObjects(m, keys[0]);
      NoArrayIsScanned(m, keys[1..]);
    }
  }

  // -------------------------------------------------- what a descriptor reads

  /** The first of the fields that is not empty. */
  lemma {:induction false} FirstNonEmptyIsFirst(m: Object, fields: seq<string>, i: nat)
    requires i < |fields| && StringField(m, fields[i]) != "" && forall j :: 0 <= j < i ==>
                                                                              StringField(m, fields[j]) == ""
    ensures FirstNonEmpty(m, fields) == StringField(m, fields[i])
  {
    if i > 0 {
      assert StringField(m, fields[0]) == "";
      FirstNonEmptyIsFirst(m, fields[1..], i - 1);
    }
  }

  lemma {:induction false} NoneNonEmpty(m: Object, fields: seq<string>)
    requires forall j :: 0 <= j < |fields| ==> StringField(m, fields[j]) == ""
    ensures FirstNonEmpty(m, fields) == ""
  {
    if fields != [] {
      assert StringField(m, fields[0]) == "";
      NoneNonEmpty(m, fields[1..]);
    }
  }

  /** The first array key that yields anything gives the identifiers. */
  lemma {:induction false} FirstYieldIsFirst(obj: Object, keys: seq<string>, d: Shape, i: nat)
    requires i < |keys| && ShapedItems(ArrayField(obj, keys[i]), d) != []
    requires forall j :: 0 <= j < i ==> ShapedItems(ArrayField(obj, keys[j]), d) == []
    ensures FirstYield(obj, keys, d) == ShapedItems(ArrayField(obj, keys[i]), d)
  {
    if i > 0 {
      FirstYieldIsFirst(obj, keys[1..], d, i - 1);
    }
  }

  /** An identifier below an item: a bare string of a one-part path, a field of an object of a two-part one. */
  ghost predicate OnPath(m: Object, path: seq<string>, kind: IdKind, id: Identifier) {
    if |path| == 1 then
      exists item :: item in ArrayField(m, path[0]) && item.JString? && item.s != "" && !IsPlaceholder(item.s)
                     && id == Identifier(item.s, kind, "", "")
    else
      |path| == 2 && exists item :: item in ArrayField(m, path[0]) && item.JObject?
                                    && StringField(item.fields, path[1]) != ""
                                    && id == FromMap(item.fields, StringField(item.fields, path[1]), kind)
  }

  lemma {:induction false} ObjectFieldIdsMean(items: seq<Json>, field: string, kind: IdKind, id: Identifier)
    ensures id in ObjectFieldIds(items, field, kind) <==>
            exists item :: item in items && item.JObject? && StringField(item.fields, field) != ""
                           && id == FromMap(item.fields, StringField(item.fields, field), kind)
  {
    if items != [] {
      var n := |items| - 1;
      ObjectFieldIdsMean(items[..n], field, kind, id);
      assert items == items[..n] + [items[n]];
    }
  }

  lemma PathIdsMean(m: Object, path: seq<string>, kind: IdKind, id: Identifier)
    ensures id in PathIds(m, path, kind) <==> OnPath(m, path, kind, id)
  {
    if |path| == 1 {
      ListedIdsMeaning(ArrayField(m, path[0]), kind, id);
    } else if |path| == 2 {
      ObjectFieldIdsMean(ArrayField(m, path[0]), path[1], kind, id);
    }
  }

  lemma {:induction false} PathsIdsMean(m: Object, paths: seq<seq<string>>, kind: IdKind, id: Identifier)
    ensures id in PathsIds(m, paths, kind) <==> exists path :: path in paths && OnPath(m, path, kind, id)
  {
    if paths != [] {
      var n := |paths| - 1;
      PathsIdsMean(m, paths[..n], kind, id);
      PathIdsMean(m, paths[n], kind, id);
      assert paths == paths[..n] + [paths[n]];
    }
  }

  /** What a descriptor reads in an item: its first non-empty field, and what its paths lead to. */
  ghost predicate InShapedItem(m: Object, d: Shape, id: Identifier) {
    || (FirstNonEmpty(m, d.itemFields) != "" && id == FromMap(m, FirstNonEmpty(m, d.itemFields), d.kind))
    || exists path :: path in d.nestedPaths && OnPath(m, path, d.kind, id)
  }

  lemma {:induction false} ShapedItemsMean(items: seq<Json>, d: Shape, id: Identifier)
    ensures id in ShapedItems(items, d) <==>
            exists item :: item in items && item.JObject? && InShapedItem(item.fields, d, id)
  {
    if items != [] {
      var n := |items| - 1;
      ShapedItemsMean(items[..n], d, id);
      assert items == items[..n] + [items[n]];
      if items[n].JObject? {
        PathsIdsMean(items[n].fields, d.nestedPaths, d.kind, id);
      }
    }
  }

  /** A descriptor gives the single field first, then the identifiers of its first array that has any. */
  lemma DescriptorsRead(obj: Object, d: Shape)
    ensures var v := FirstNonEmpty(obj, d.singleFields);
            ByShape(obj, d) == (if v == "" then [] else [FromMap(obj, v, d.kind)]) + FirstYield(obj, d.arrayKeys, d)
    ensures FromMap(obj, "x", d.kind) ==
            Identifier("x", d.kind, StringField(obj, "entity_type"), StringField(obj, "label"))
  {
  }

  /** Without a descriptor, or if it finds nothing, the document is scanned; content that is no object gives nothing. */
  lemma ExtractionFallsBack(obj: Object, d: Shape, order: KeyOrder)
    ensures Extracted(None, Some(d), order) == [] && Extracted(Some(obj), None, order) == Scan(obj, order)
    ensures Extracted(Some(obj), Some(d), order) == if ByShape(obj, d) != [] then ByShape(obj, d) else Scan(obj, order)
  {
  }
}
