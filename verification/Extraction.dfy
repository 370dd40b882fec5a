/**
 Reading identifiers out of a prior step's JSON: extraction by a shape
 descriptor, and the bounded allow-list scan used when there is no descriptor
 or it finds nothing. Sorting the keys of an object is a parameter, an
 enumeration that depends on the set of keys only.
 */
module Extraction {
  import opened Prelude
  import opened ArgumentResolution

  datatype Json = JString(s: string) | JArray(items: seq<Json>) | JObject(fields: map<string, Json>)
                | JOther(text: string)

  type Object = map<string, Json>

  type KeyOrder = set<string> -> seq<string>

  /** The order lists each set of keys. */
  ghost predicate ListsKeys(order: KeyOrder) {
    forall keys, k :: k in order(keys) <==> k in keys
  }

  function StringField(m: Object, key: string): string {
    if key in m && m[key].JString? then m[key].s else ""
  }

  function ArrayField(m: Object, key: string): seq<Json> {
    if key in m && m[key].JArray? then m[key].items else []
  }

  /** `identifierShaped`. */
  predicate Shaped(s: string) {
    s != "" && !IsPlaceholder(s)
  }

  /** `kindForField`. */
  function KindForField(field: string): IdKind {
    if field == "document_id" then Document else Entity
  }

  /** `identifierFromMap`. */
  function FromMap(m: Object, value: string, kind: IdKind): Identifier {
    Identifier(value, kind, StringField(m, "entity_type"), StringField(m, "label"))
  }

  const ALLOW_FIELDS: seq<string> :=
    ["entity_id", "id", "document_id", "source_id", "start_entity_id", "source_entity_id", "target_entity_id",
     "representative_entity"]

  const LIST_FIELD := "matched_entities"

  const ARRAY_KEY_PRIORITY: seq<string> :=
    ["results", "entities", "nodes", "documents", "passages", "relationships", "clusters", "items", "matches"]

  // -------------------------------------------------- the scan, in document order

  /** One allow-listed field of an object; only items carry their type and label. */
  function OneField(m: Object, field: string, carry: bool): seq<Identifier> {
    var v := StringField(m, field);
    if !Shaped(v) then []
    else if carry then [FromMap(m, v, KindForField(field))]
    else [Identifier(v, KindForField(field), "", "")]
  }

  function FieldIds(m: Object, fields: seq<string>, carry: bool): seq<Identifier> {
    if fields == [] then []
    else FieldIds(m, fields[..|fields| - 1], carry) + OneField(m, fields[|fields| - 1], carry)
  }

  /** A bare identifier string. */
  function OneListed(item: Json, kind: IdKind): seq<Identifier> {
    if item.JString? && Shaped(item.s) then [Identifier(item.s, kind, "", "")] else []
  }

  function ListedIds(items: seq<Json>, kind: IdKind): seq<Identifier> {
    if items == [] then [] else ListedIds(items[..|items| - 1], kind) + OneListed(items[|items| - 1], kind)
  }

  /** The objects of an array nested in an item. */
  function NestedIds(items: seq<Json>): seq<Identifier> {
    if items == [] then []
    else
      var n := |items| - 1;
      NestedIds(items[..n]) + if items[n].JObject? then FieldIds(items[n].fields, ALLOW_FIELDS, true) else []
  }

  function KeyIds(m: Object, keys: seq<string>): seq<Identifier> {
    if keys == [] then [] else KeyIds(m, keys[..|keys| - 1]) + NestedIds(ArrayField(m, keys[|keys| - 1]))
  }

  function ItemIds(m: Object, order: KeyOrder): seq<Identifier> {
    FieldIds(m, ALLOW_FIELDS, true) + ListedIds(ArrayField(m, LIST_FIELD), Entity) + KeyIds(m, order(m.Keys))
  }

  function ItemsIds(items: seq<Json>, order: KeyOrder): seq<Identifier> {
    if items == [] then []
    else
      var n := |items| - 1;
      ItemsIds(items[..n], order) + if items[n].JObject? then ItemIds(items[n].fields, order) else []
  }

  /** `isArrayOfObjects` on a field that holds a non-empty array. */
  predicate HoldsObjects(m: Object, key: string) {
    ArrayField(m, key) != [] && ArrayField(m, key)[0].JObject?
  }

  /** The array of the first key that holds objects. */
  function FirstArray(m: Object, keys: seq<string>): seq<Json> {
    if keys == [] then [] else if HoldsObjects(m, keys[0]) then ArrayField(m, keys[0]) else FirstArray(m, keys[1..])
  }

  function Scan(obj: Object, order: KeyOrder): seq<Identifier> {
    FieldIds(obj, ALLOW_FIELDS, false) + ItemsIds(FirstArray(obj, ARRAY_KEY_PRIORITY + order(obj.Keys)), order)
  }

  // -------------------------------------------------- the loops

  method ScanFields(m: Object, fields: seq<string>, carry: bool) returns (ids: seq<Identifier>)
    ensures ids == FieldIds(m, fields, carry)
  {
    ids := [];
    for i := 0 to |fields|
      invariant ids == FieldIds(m, fields[..i], carry)
    {
      assert fields[..i + 1][..i] == fields[..i];
      ids := ids + OneField(m, fields[i], carry);
    }
    assert fields[..|fields|] == fields;
  }

  method ScanList(items: seq<Json>, kind: IdKind) returns (ids: seq<Identifier>)
    ensures ids == ListedIds(items, kind)
  {
    ids := [];
    for i := 0 to |items|
      invariant ids == ListedIds(items[..i], kind)
    {
      assert items[..i + 1][..i] == items[..i];
      ids := ids + OneListed(items[i], kind);
    }
    assert items[..|items|] == items;
  }

  method ScanNested(items: seq<Json>) returns (ids: seq<Identifier>)
    ensures ids == NestedIds(items)
  {
    ids := [];
    for i := 0 to |items|
      invariant ids == NestedIds(items[..i])
    {
      assert items[..i + 1][..i] == items[..i];
      if items[i].JObject? {
        var more := ScanFields(items[i].fields, ALLOW_FIELDS, true);
        ids := ids + more;
      }
    }
    assert items[..|items|] == items;
  }

  /** `heuristicScanItem`. */
  method ScanItem(m: Object, order: KeyOrder) returns (ids: seq<Identifier>)
    ensures ids == ItemIds(m, order)
  {
    var own := ScanFields(m, ALLOW_FIELDS, true);
    var listed := ScanList(ArrayField(m, LIST_FIELD), Entity);
    var keys := order(m.Keys);
    var nested: seq<Identifier> := [];
    for i := 0 to |keys|
      invariant nested == KeyIds(m, keys[..i])
    {
      assert keys[..i + 1][..i] == keys[..i];
      var more := ScanNested(ArrayField(m, keys[i]));
      nested := nested + more;
    }
    assert keys[..|keys|] == keys;
    ids := own + listed + nested;
  }

  /** `firstArrayOfObjects`: the fixed priority first, then the remaining keys in order. */
  method FirstArrayOfObjects(obj: Object, keys: seq<string>) returns (items: seq<Json>)
    ensures items == FirstArray(obj, keys)
  {
    for i := 0 to |keys|
      invariant FirstArray(obj, keys) == FirstArray(obj, keys[i..])
    {
      if HoldsObjects(obj, keys[i]) {
        return ArrayField(obj, keys[i]);
      }
      assert keys[i..][1..] == keys[i + 1..];
    }
    return [];
  }

  /** `heuristicScan`. */
  method HeuristicScan(obj: Object, order: KeyOrder) returns (ids: seq<Identifier>)
    ensures ids == Scan(obj, order)
  {
    var top := ScanFields(obj, ALLOW_FIELDS, false);
    var items := FirstArrayOfObjects(obj, ARRAY_KEY_PRIORITY + order(obj.Keys));
    var found: seq<Identifier> := [];
    for i := 0 to |items|
      invariant found == ItemsIds(items[..i], order)
    {
      assert items[..i + 1][..i] == items[..i];
      if items[i].JObject? {
        var more := ScanItem(items[i].fields, order);
        found := found + more;
      }
    }
    assert items[..|items|] == items;
    ids := top + found;
  }

  // -------------------------------------------------- where an identifier may come from

  /** id is the value of an allow-listed field of m. */
  ghost predicate ReadAt(m: Object, fields: seq<string>, carry: bool, id: Identifier) {
    exists f :: f in fields && id in OneField(m, f, carry)
  }

  ghost predicate ListedAt(items: seq<Json>, kind: IdKind, id: Identifier) {
    exists item :: item in items && id in OneListed(item, kind)
  }

  ghost predicate NestedAt(items: seq<Json>, id: Identifier) {
    exists item :: item in items && item.JObject? && ReadAt(item.fields, ALLOW_FIELDS, true, id)
  }

  /** id stands in an item: in a field, in its list of matches, or one array further down. */
  ghost predicate InItem(m: Object, id: Identifier) {
    || ReadAt(m, ALLOW_FIELDS, true, id)
    || ListedAt(ArrayField(m, LIST_FIELD), Entity, id)
    || exists k :: k in m && NestedAt(ArrayField(m, k), id)
  }

  /** id stands at the top of the content or in an item of its first array of objects. */
  ghost predicate Located(obj: Object, order: KeyOrder, id: Identifier) {
    var items := FirstArray(obj, ARRAY_KEY_PRIORITY + order(obj.Keys));
    ReadAt(obj, ALLOW_FIELDS, false, id) || InItems(items, id)
  }

  ghost predicate InItems(items: seq<Json>, id: Identifier) {
    exists item :: item in items && item.JObject? && InItem(item.fields, id)
  }

  lemma {:induction false} FieldIdsMeaning(m: Object, fields: seq<string>, carry: bool, id: Identifier)
    ensures id in FieldIds(m, fields, carry) <==> ReadAt(m, fields, carry, id)
  {
    if fields != [] {
      var n := |fields| - 1;
      FieldIdsMeaning(m, fields[..n], carry, id);
      assert fields == fields[..n] + [fields[n]];
    }
  }

  lemma {:induction false} ListedIdsMeaning(items: seq<Json>, kind: IdKind, id: Identifier)
    ensures id in ListedIds(items, kind) <==> ListedAt(items, kind, id)
  {
    if items != [] {
      var n := |items| - 1;
      ListedIdsMeaning(items[..n], kind, id);
      assert items == items[..n] + [items[n]];
    }
  }

  lemma {:induction false} NestedIdsMeaning(items: seq<Json>, id: Identifier)
    ensures id in NestedIds(items) <==> NestedAt(items, id)
  {
    if items != [] {
      var n := |items| - 1;
      NestedIdsMeaning(items[..n], id);
      assert items == items[..n] + [items[n]];
      if items[n].JObject? {
        FieldIdsMeaning(items[n].fields, ALLOW_FIELDS, true, id);
      }
    }
  }

  lemma {:induction false} KeyIdsMeaning(m: Object, keys: seq<string>, id: Identifier)
    ensures id in KeyIds(m, keys) <==> exists k :: k in keys && NestedAt(ArrayField(m, k), id)
  {
    if keys != [] {
      var n := |keys| - 1;
      KeyIdsMeaning(m, keys[..n], id);
      NestedIdsMeaning(ArrayField(m, keys[n]), id);
      assert keys == keys[..n] + [keys[n]];
    }
  }

  lemma ItemIdsMeaning(m: Object, order: KeyOrder, id: Identifier)
    requires ListsKeys(order)
    ensures id in ItemIds(m, order) <==> InItem(m, id)
  {
    FieldIdsMeaning(m, ALLOW_FIELDS, true, id);
    ListedIdsMeaning(ArrayField(m, LIST_FIELD), Entity, id);
    KeyIdsMeaning(m, order(m.Keys), id);
  }

  lemma InItemsSnoc(front: seq<Json>, last: Json, id: Identifier)
    ensures InItems(front + [last], id) <==> InItems(front, id) || (last.JObject? && InItem(last.fields, id))
  {
    var items := front + [last];
    if InItems(front, id) {
      var item :| item in front && item.JObject? && InItem(item.fields, id);
      assert item in items;
    } else if last.JObject? && InItem(last.fields, id) {
      assert last in items;
    }
  }

  lemma {:induction false} ItemsIdsMeaning(items: seq<Json>, order: KeyOrder, id: Identifier)
    requires ListsKeys(order)
    ensures id in ItemsIds(items, order) <==> InItems(items, id)
  {
    if items != [] {
      var n := |items| - 1;
      ItemsIdsMeaning(items[..n], order, id);
      InItemsSnoc(items[..n], items[n], id);
      assert items == items[..n] + [items[n]];
      if items[n].JObject? {
        ItemIdsMeaning(items[n].fields, order, id);
      }
    }
  }

  /** The scan yields exactly the identifiers that stand where the allow-list says, at most two levels down. */
  lemma ScanFindsTheLocatedOnes(obj: Object, order: KeyOrder, id: Identifier)
    requires ListsKeys(order)
    ensures id in Scan(obj, order) <==> Located(obj, order, id)
  {
    FieldIdsMeaning(obj, ALLOW_FIELDS, false, id);
    ItemsIdsMeaning(FirstArray(obj, ARRAY_KEY_PRIORITY + order(obj.Keys)), order, id);
  }

  // -------------------------------------------------- fields off the allow-list

  /** A key that no identifier is read from or described by. */
  predicate Unlisted(key: string) {
    key !in ALLOW_FIELDS && key != "entity_type" && key != "label"
  }

  /** Objects that differ only in the text under `key`, in themselves and in objects at most `depth` arrays down. */
  ghost predicate Alike(m: Object, m': Object, key: string, depth: nat)
    decreases depth, 1
  {
    m.Keys == m'.Keys && forall k :: k in m ==> AlikeField(k, m[k], m'[k], key, depth)
  }

  ghost predicate AlikeField(k: string, j: Json, j': Json, key: string, depth: nat)
    decreases depth, 0
  {
    || j == j'
    || (k == key && j.JString? && j'.JString?)
    || (depth > 0 && j.JArray? && j'.JArray? && |j.items| == |j'.items|
        && forall i :: 0 <= i < |j.items| ==> AlikeItem(j.items[i], j'.items[i], key, depth - 1))
  }

  ghost predicate AlikeItem(j: Json, j': Json, key: string, depth: nat)
    decreases depth, 2
  {
    j == j' || (j.JObject? && j'.JObject? && Alike(j.fields, j'.fields, key, depth))
  }

  ghost predicate AlikeSomehow(j: Json, j': Json, key: string) {
    exists depth: nat :: AlikeItem(j, j', key, depth)
  }

  /** Arrays of such objects. */
  ghost predicate AlikeItems(items: seq<Json>, items': seq<Json>, key: string) {
    |items| == |items'| && forall i :: 0 <= i < |items| ==> AlikeSomehow(items[i], items'[i], key)
  }

  lemma ArraysAlike(m: Object, m': Object, key: string, depth: nat, k: string)
    requires Alike(m, m', key, depth)
    ensures AlikeItems(ArrayField(m, k), ArrayField(m', k), key)
  {
    var items, items' := ArrayField(m, k), ArrayField(m', k);
    if k in m {
      assert AlikeField(k, m[k], m'[k], key, depth);
      if m[k] != m'[k] && m[k].JArray? {
        forall i | 0 <= i < |items| ensures AlikeSomehow(items[i], items'[i], key) {
          assert AlikeItem(items[i], items'[i], key, depth - 1);
        }
      } else {
        SameIsAlike(items, key);
      }
    }
  }

  lemma SameIsAlike(items: seq<Json>, key: string)
    ensures AlikeItems(items, items, key)
  {
    forall i | 0 <= i < |items| ensures AlikeSomehow(items[i], items[i], key) {
      assert AlikeItem(items[i], items[i], key, 0);
    }
  }

  lemma StringsAlike(m: Object, m': Object, key: string, depth: nat, k: string)
    requires Alike(m, m', key, depth) && k != key
    ensures StringField(m, k) == StringField(m', k)
  {
    if k in m {
      assert AlikeField(k, m[k], m'[k], key, depth);
    }
  }

  lemma {:induction false} FieldIdsAlike(m: Object, m': Object, key: string, depth: nat, fields: seq<string>,
                                         carry: bool)
    requires Alike(m, m', key, depth) && key !in fields && (carry ==> key != "entity_type" && key != "label")
    ensures FieldIds(m, fields, carry) == FieldIds(m', fields, carry)
  {
    if fields != [] {
      var n := |fields| - 1;
      FieldIdsAlike(m, m', key, depth, fields[..n], carry);
      StringsAlike(m, m', key, depth, fields[n]);
      if carry {
        StringsAlike(m, m', key, depth, "entity_type");
        StringsAlike(m, m', key, depth, "label");
      }
    }
  }

  lemma FrontAlike(items: seq<Json>, items': seq<Json>, key: string)
    requires items != [] && AlikeItems(items, items', key)
    ensures AlikeItems(items[..|items| - 1], items'[..|items| - 1], key)
    ensures AlikeSomehow(items[|items| - 1], items'[|items| - 1], key)
  {
    var n := |items| - 1;
    forall i | 0 <= i < n ensures AlikeSomehow(items[..n][i], items'[..n][i], key) {
      assert AlikeSomehow(items[i], items'[i], key);
    }
  }

  lemma {:induction false} ListedIdsAlike(items: seq<Json>, items': seq<Json>, key: string, kind: IdKind)
    requires AlikeItems(items, items', key)
    ensures ListedIds(items, kind) == ListedIds(items', kind)
  {
    if items != [] {
      FrontAlike(items, items', key);
      ListedIdsAlike(items[..|items| - 1], items'[..|items| - 1], key, kind);
    }
  }

  lemma {:induction false} NestedIdsAlike(items: seq<Json>, items': seq<Json>, key: string)
    requires AlikeItems(items, items', key) && Unlisted(key)
    ensures NestedIds(items) == NestedIds(items')
  {
    if items != [] {
      var n := |items| - 1;
      FrontAlike(items, items', key);
      NestedIdsAlike(items[..n], items'[..n], key);
      var d: nat :| AlikeItem(items[n], items'[n], key, d);
      if items[n] != items'[n] {
        FieldIdsAlike(items[n].fields, items'[n].fields, key, d, ALLOW_FIELDS, true);
      }
    }
  }

  lemma {:induction false} KeyIdsAlike(m: Object, m': Object, key: string, depth: nat, keys: seq<string>)
    requires Alike(m, m', key, depth) && Unlisted(key)
    ensures KeyIds(m, keys) == KeyIds(m', keys)
  {
    if keys != [] {
      var n := |keys| - 1;
      KeyIdsAlike(m, m', key, depth, keys[..n]);
      ArraysAlike(m, m', key, depth, keys[n]);
      NestedIdsAlike(ArrayField(m, keys[n]), ArrayField(m', keys[n]), key);
    }
  }

  /**
   The text of a field off the allow-list has no influence on what an item gives, in the item or in the objects
   of its arrays.
   */
  lemma UnlistedItemFieldsAreNotRead(m: Object, m': Object, order: KeyOrder, key: string, depth: nat)
    requires Alike(m, m', key, depth) && Unlisted(key)
    ensures ItemIds(m, order) == ItemIds(m', order)
  {
    FieldIdsAlike(m, m', key, depth, ALLOW_FIELDS, true);
    ArraysAlike(m, m', key, depth, LIST_FIELD);
    ListedIdsAlike(ArrayField(m, LIST_FIELD), ArrayField(m', LIST_FIELD), key, Entity);
    KeyIdsAlike(m, m', key, depth, order(m.Keys));
  }

  lemma {:induction false} ItemsIdsAlike(items: seq<Json>, items': seq<Json>, order: KeyOrder, key: string)
    requires AlikeItems(items, items', key) && Unlisted(key)
    ensures ItemsIds(items, order) == ItemsIds(items', order)
  {
    if items != [] {
      var n := |items| - 1;
      FrontAlike(items, items', key);
      ItemsIdsAlike(items[..n], items'[..n], order, key);
      var d: nat :| AlikeItem(items[n], items'[n], key, d);
      if items[n] != items'[n] {
        UnlistedItemFieldsAreNotRead(items[n].fields, items'[n].fields, order, key, d);
      }
    }
  }

  lemma {:induction false} FirstArrayAlike(m: Object, m': Object, key: string, depth: nat, keys: seq<string>)
    requires Alike(m, m', key, depth)
    ensures AlikeItems(FirstArray(m, keys), FirstArray(m', keys), key)
  {
    if keys != [] {
      var items, items' := ArrayField(m, keys[0]), ArrayField(m', keys[0]);
      ArraysAlike(m, m', key, depth, keys[0]);
      if items != [] {
        assert AlikeSomehow(items[0], items'[0], key);
      }
      FirstArrayAlike(m, m', key, depth, keys[1..]);
    }
  }

  lemma {:induction false} FirstArraySame(m: Object, m': Object, key: string, keys: seq<string>)
    requires Alike(m, m', key, 0)
    ensures FirstArray(m, keys) == FirstArray(m', keys)
  {
    if keys != [] {
      if keys[0] in m {
        assert AlikeField(keys[0], m[keys[0]], m'[keys[0]], key, 0);
      }
      FirstArraySame(m, m', key, keys[1..]);
    }
  }

  /**
   The text of a field off the allow-list, such as a tenant id or an audit field,
   has no influence on the scan, wherever in the document it stands; a type or a
   label has none at the top, and below it only describes the identifiers.
   */
  lemma UnlistedFieldsAreNotRead(obj: Object, obj': Object, order: KeyOrder, key: string, depth: nat)
    requires Alike(obj, obj', key, depth) && key !in ALLOW_FIELDS && (depth > 0 ==> Unlisted(key))
    ensures Scan(obj, order) == Scan(obj', order)
  {
    var keys := ARRAY_KEY_PRIORITY + order(obj.Keys);
    FieldIdsAlike(obj, obj', key, depth, ALLOW_FIELDS, false);
    if depth == 0 {
      FirstArraySame(obj, obj', key, keys);
    } else {
      FirstArrayAlike(obj, obj', key, depth, keys);
      ItemsIdsAlike(FirstArray(obj, keys), FirstArray(obj', keys), order, key);
    }
  }

  // -------------------------------------------------- extraction by descriptor

  datatype Shape = Shape(arrayKeys: seq<string>, itemFields: seq<string>, nestedPaths: seq<seq<string>>,
                         singleFields: seq<string>, kind: IdKind)

  /** `firstNonEmptyField`. */
  function FirstNonEmpty(m: Object, fields: seq<string>): string {
    if fields == [] then "" else if StringField(m, fields[0]) != "" then StringField(m, fields[0])
    else FirstNonEmpty(m, fields[1..])
  }

  function IfAny(m: Object, value: string, kind: IdKind): seq<Identifier> {
    if value == "" then [] else [FromMap(m, value, kind)]
  }

  function ObjectFieldIds(items: seq<Json>, field: string, kind: IdKind): seq<Identifier> {
    if items == [] then []
    else
      var n := |items| - 1;
      ObjectFieldIds(items[..n], field, kind) +
      if items[n].JObject? then IfAny(items[n].fields, StringField(items[n].fields, field), kind) else []
  }

  /** One nested path: an array of bare strings, or a field of each object of an array. */
  function PathIds(m: Object, path: seq<string>, kind: IdKind): seq<Identifier> {
    if |path| == 1 then ListedIds(ArrayField(m, path[0]), kind)
    else if |path| == 2 then ObjectFieldIds(ArrayField(m, path[0]), path[1], kind)
    else []
  }

  function PathsIds(m: Object, paths: seq<seq<string>>, kind: IdKind): seq<Identifier> {
    if paths == [] then [] else PathsIds(m, paths[..|paths| - 1], kind) + PathIds(m, paths[|paths| - 1], kind)
  }

  function ShapedItems(items: seq<Json>, d: Shape): seq<Identifier> {
    if items == [] then []
    else
      var n := |items| - 1;
      ShapedItems(items[..n], d) +
      if items[n].JObject? then
        IfAny(items[n].fields, FirstNonEmpty(items[n].fields, d.itemFields), d.kind)
        + PathsIds(items[n].fields, d.nestedPaths, d.kind)
      else []
  }

  /** The identifiers of the first array key that yields any. */
  function FirstYield(obj: Object, keys: seq<string>, d: Shape): seq<Identifier> {
    if keys == [] then []
    else if ShapedItems(ArrayField(obj, keys[0]), d) != [] then ShapedItems(ArrayField(obj, keys[0]), d)
    else FirstYield(obj, keys[1..], d)
  }

  function ByShape(obj: Object, d: Shape): seq<Identifier> {
    IfAny(obj, FirstNonEmpty(obj, d.singleFields), d.kind) + FirstYield(obj, d.arrayKeys, d)
  }

  method FindNonEmpty(m: Object, fields: seq<string>) returns (v: string)
    ensures v == FirstNonEmpty(m, fields)
  {
    for i := 0 to |fields|
      invariant FirstNonEmpty(m, fields) == FirstNonEmpty(m, fields[i..])
    {
      v := StringField(m, fields[i]);
      if v != "" {
        return;
      }
      assert fields[i..][1..] == fields[i + 1..];
    }
    v := "";
  }

  method ReadObjects(items: seq<Json>, field: string, kind: IdKind) returns (ids: seq<Identifier>)
    ensures ids == ObjectFieldIds(items, field, kind)
  {
    ids := [];
    for i := 0 to |items|
      invariant ids == ObjectFieldIds(items[..i], field, kind)
    {
      assert items[..i + 1][..i] == items[..i];
      if items[i].JObject? {
        ids := ids + IfAny(items[i].fields, StringField(items[i].fields, field), kind);
      }
    }
    assert items[..|items|] == items;
  }

  /** `extractNested`. */
  method ExtractNested(m: Object, paths: seq<seq<string>>, kind: IdKind) returns (ids: seq<Identifier>)
    ensures ids == PathsIds(m, paths, kind)
  {
    ids := [];
    for i := 0 to |paths|
      invariant ids == PathsIds(m, paths[..i], kind)
    {
      assert paths[..i + 1][..i] == paths[..i];
      var path, more := paths[i], [];
      if |path| == 1 {
        more := ScanList(ArrayField(m, path[0]), kind);
      } else if |path| == 2 {
        more := ReadObjects(ArrayField(m, path[0]), path[1], kind);
      }
      ids := ids + more;
    }
    assert paths[..|paths|] == paths;
  }

  method ReadItems(items: seq<Json>, d: Shape) returns (ids: seq<Identifier>)
    ensures ids == ShapedItems(items, d)
  {
    ids := [];
    for i := 0 to |items|
      invariant ids == ShapedItems(items[..i], d)
    {
      assert items[..i + 1][..i] == items[..i];
      if items[i].JObject? {
        var v := FindNonEmpty(items[i].fields, d.itemFields);
        var nested := ExtractNested(items[i].fields, d.nestedPaths, d.kind);
        ids := ids + (IfAny(items[i].fields, v, d.kind) + nested);
      }
    }
    assert items[..|items|] == items;
  }

  /** `extractWithDescriptor`. */
  method ExtractWithDescriptor(obj: Object, d: Shape) returns (ids: seq<Identifier>)
    ensures ids == ByShape(obj, d)
  {
    var v := FindNonEmpty(obj, d.singleFields);
    ids := IfAny(obj, v, d.kind);
    for i := 0 to |d.arrayKeys|
      invariant FirstYield(obj, d.arrayKeys, d) == FirstYield(obj, d.arrayKeys[i..], d)
    {
      var found := ReadItems(ArrayField(obj, d.arrayKeys[i]), d);
      if found != [] {
        return ids + found;
      }
      assert d.arrayKeys[i..][1..] == d.arrayKeys[i + 1..];
    }
  }

  /** The identifiers of decoded content; none when it is not an object. */
  function Extracted(content: Option<Object>, d: Option<Shape>, order: KeyOrder): seq<Identifier> {
    if content.None? then []
    else if d.Some? && ByShape(content.value, d.value) != [] then ByShape(content.value, d.value)
    else Scan(content.value, order)
  }

  /** `Extract`. */
  method Extract(content: Option<Object>, d: Option<Shape>, order: KeyOrder) returns (ids: seq<Identifier>)
    ensures ids == Extracted(content, d, order)
  {
    if content.None? {
      return [];
    }
    if d.Some? {
      ids := ExtractWithDescriptor(content.value, d.value);
      if ids != [] {
        return;
      }
    }
    ids := HeuristicScan(content.value, order);
  }

  // -------------------------------------------------- kinds

  /** Only identifiers of one kind, none of them empty. */
  ghost predicate OfKind(ids: seq<Identifier>, kind: IdKind) {
    forall id :: id in ids ==> id.kind == kind && id.value != ""
  }

  lemma {:induction false} PathsIdsOfKind(m: Object, paths: seq<seq<string>>, kind: IdKind)
    ensures OfKind(PathsIds(m, paths, kind), kind)
  {
    if paths != [] {
      var path := paths[|paths| - 1];
      PathsIdsOfKind(m, paths[..|paths| - 1], kind);
      if |path| == 1 {
        ListedOfKind(ArrayField(m, path[0]), kind);
      } else if |path| == 2 {
        ObjectsOfKind(ArrayField(m, path[0]), path[1], kind);
      }
    }
  }

  lemma {:induction false} ListedOfKind(items: seq<Json>, kind: IdKind)
    ensures OfKind(ListedIds(items, kind), kind)
  {
    if items != [] {
      ListedOfKind(items[..|items| - 1], kind);
    }
  }

  lemma {:induction false} ObjectsOfKind(items: seq<Json>, field: string, kind: IdKind)
    ensures OfKind(ObjectFieldIds(items, field, kind), kind)
  {
    if items != [] {
      ObjectsOfKind(items[..|items| - 1], field, kind);
    }
  }

  lemma {:induction false} ItemsOfKind(items: seq<Json>, d: Shape)
    ensures OfKind(ShapedItems(items, d), d.kind)
  {
    if items != [] {
      var n := |items| - 1;
      ItemsOfKind(items[..n], d);
      if items[n].JObject? {
        PathsIdsOfKind(items[n].fields, d.nestedPaths, d.kind);
      }
    }
  }

  lemma {:induction false} YieldOfKind(obj: Object, keys: seq<string>, d: Shape)
    ensures OfKind(FirstYield(obj, keys, d), d.kind)
  {
    if keys != [] {
      ItemsOfKind(ArrayField(obj, keys[0]), d);
      YieldOfKind(obj, keys[1..], d);
    }
  }

  /** A descriptor yields identifiers of its own kind only. */
  lemma DescriptorsYieldTheirKind(obj: Object, d: Shape)
    ensures OfKind(ByShape(obj, d), d.kind)
  {
    YieldOfKind(obj, d.arrayKeys, d);
  }

  /** Every identifier of a scan is concrete, and it is a document's only when it stands in a document_id field. */
  lemma ScannedAreConcrete(obj: Object, order: KeyOrder, id: Identifier)
    requires ListsKeys(order) && id in Scan(obj, order)
    ensures Shaped(id.value) && id.kind != Relationship
    ensures id.kind == Document ==>
              || StringField(obj, "document_id") == id.value
              || exists m :: BelowTop(obj, order, m) && StringField(m, "document_id") == id.value
  {
    ScanFindsTheLocatedOnes(obj, order, id);
    var items := FirstArray(obj, ARRAY_KEY_PRIORITY + order(obj.Keys));
    if ReadAt(obj, ALLOW_FIELDS, false, id) {
      ReadIsConcrete(obj, ALLOW_FIELDS, false, id);
    } else {
      var item :| item in items && item.JObject? && InItem(item.fields, id);
      var m := item.fields;
      assert BelowTop(obj, order, m);
      if ReadAt(m, ALLOW_FIELDS, true, id) {
        ReadIsConcrete(m, ALLOW_FIELDS, true, id);
      } else if !ListedAt(ArrayField(m, LIST_FIELD), Entity, id) {
        var k :| k in m && NestedAt(ArrayField(m, k), id);
        var child :| child in ArrayField(m, k) && child.JObject? && ReadAt(child.fields, ALLOW_FIELDS, true, id);
        ReadIsConcrete(child.fields, ALLOW_FIELDS, true, id);
        assert ChildOf(m, child.fields);
        assert BelowTop(obj, order, child.fields);
      }
    }
  }

  lemma ReadIsConcrete(m: Object, fields: seq<string>, carry: bool, id: Identifier)
    requires ReadAt(m, fields, carry, id)
    ensures Shaped(id.value) && id.kind != Relationship
            && (id.kind == Document ==> StringField(m, "document_id") == id.value)
  {
    var f :| f in fields && id in OneField(m, f, carry);
  }

  /** An object in one of m's arrays. */
  ghost predicate ChildOf(m: Object, child: Object) {
    exists k :: k in m && JObject(child) in ArrayField(m, k)
  }

  /** An item of the first array of objects, or an object in one of an item's arrays. */
  ghost predicate BelowTop(obj: Object, order: KeyOrder, m: Object) {
    var items := FirstArray(obj, ARRAY_KEY_PRIORITY + order(obj.Keys));
    JObject(m) in items || exists item :: item in items && item.JObject? && ChildOf(item.fields, m)
  }

  // -------------------------------------------------- extraction and resolution together

  /** After a scan, an ID field that changed holds a concrete value of its kind out of the content. */
  lemma ScanFillsConcreteValues(args: Args, obj: Object, order: KeyOrder, target: ToolSchema, field: string)
    requires ListsKeys(order) && KindOfField(field).Some?
    requires field in Resolved(args, Scan(obj, order), target)
    requires field !in args || Resolved(args, Scan(obj, order), target)[field] != args[field]
    ensures var v := Resolved(args, Scan(obj, order), target)[field];
            && Concrete(v) && field != "relationship_id"
            && exists id :: Located(obj, order, id) && id.kind == KindOfField(field).value && v == Str(id.value)
  {
    var id := FilledFrom(args, Scan(obj, order), target, field);
    ScannedAreConcrete(obj, order, id);
    ScanFindsTheLocatedOnes(obj, order, id);
  }

  lemma FilledFrom(args: Args, ids: seq<Identifier>, target: ToolSchema, field: string) returns (id: Identifier)
    requires KindOfField(field).Some? && field in Resolved(args, ids, target)
    requires field !in args || Resolved(args, ids, target)[field] != args[field]
    ensures id in ids && id.kind == KindOfField(field).value && Resolved(args, ids, target)[field] == Str(id.value)
    ensures field == "relationship_id" ==> id.kind == Relationship
  {
    FillsAreOfTheFieldsKind(args, ids, target, field);
    id := FirstOfKind(ids, KindOfField(field).value).value;
  }

  /** A descriptor of one kind leaves the ID fields of every other kind alone, unless it finds nothing. */
  lemma DescriptorsKeepKindsApart(args: Args, obj: Object, d: Shape, order: KeyOrder, target: ToolSchema, field: string)
    requires ByShape(obj, d) != [] && KindOfField(field).Some? && KindOfField(field).value != d.kind
    ensures var out := Resolved(args, Extracted(Some(obj), Some(d), order), target);
            (field in out <==> field in args) && (field in args ==> out[field] == args[field])
  {
    var ids := ByShape(obj, d);
    DescriptorsYieldTheirKind(obj, d);
    var out := Resolved(args, ids, target);
    assert FirstOfKind(ids, KindOfField(field).value).None?;
    if field in out && (field !in args || out[field] != args[field]) {
      FillsAreOfTheFieldsKind(args, ids, target, field);
    }
  }
}
