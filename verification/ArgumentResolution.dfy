/**
 Filling a dependent step's arguments from the identifiers a prior step
 produced: named placeholders first, then the well-known ID fields, in place on
 the argument map and without overwriting a concrete value.
 */
module ArgumentResolution {
  import opened Prelude
  import opened Text

  datatype IdKind = Entity | Document | Relationship

  datatype Identifier = Identifier(value: string, kind: IdKind, entityType: string, caption: string)

  /** An argument value: a string, or any other JSON value. */
  datatype Value = Str(s: string) | NotString(json: string)

  type Args = map<string, Value>

  /** A target tool and the argument names its input schema declares; none when the schema is unknown. */
  datatype ToolSchema = ToolSchema(name: string, declared: set<string>)

  const PLATFORM_TOOL_PREFIX := "kg_"

  function LowerChar(c: char): char {
    if 'A' <= c <= 'Z' then c - 'A' + 'a' else if c == '\U{130}' then 'i' else c
  }

  function Lower(s: string): string {
    seq(|s|, i requires 0 <= i < |s| => LowerChar(s[i]))
  }

  /** `isPlaceholder`. */
  predicate IsPlaceholder(s: string) {
    && s != ""
    && (|| HasPrefix(Lower(s), "<from step") || HasPrefix(Lower(s), "<from prior")
        || HasPrefix(Lower(s), "<result from")
        || HasPrefix(Lower(s), "<entity_id from") || HasPrefix(Lower(s), "<id from")
        || (HasPrefix(s, "<") && HasSuffix(s, ">")))
  }

  /** `firstOfKind`. */
  function FirstOfKind(ids: seq<Identifier>, kind: IdKind): (r: Option<Identifier>)
    ensures r.Some? ==> r.value in ids && r.value.kind == kind
    ensures r.None? ==> forall i :: 0 <= i < |ids| ==> ids[i].kind != kind
  {
    if ids == [] then None else if ids[0].kind == kind then Some(ids[0]) else FirstOfKind(ids[1..], kind)
  }

  /** It is the first in document order. */
  lemma {:induction false} FirstOfKindIsFirst(ids: seq<Identifier>, kind: IdKind) returns (i: nat)
    requires FirstOfKind(ids, kind).Some?
    ensures i < |ids| && ids[i] == FirstOfKind(ids, kind).value && forall j :: 0 <= j < i ==> ids[j].kind != kind
  {
    if ids[0].kind == kind {
      i := 0;
    } else {
      i := FirstOfKindIsFirst(ids[1..], kind);
      i := i + 1;
      assert forall j :: 0 < j < i ==> ids[j] == ids[1..][j - 1];
    }
  }

  const ENTITY_FIELDS: set<string> :=
    {"entity_id", "start_entity_id", "source_id", "source_entity_id", "target_entity_id"}

  /** The kind of identifier an argument field takes, if it is an ID field. */
  function KindOfField(field: string): Option<IdKind> {
    if field in ENTITY_FIELDS then Some(Entity)
    else if field == "document_id" then Some(Document)
    else if field == "relationship_id" then Some(Relationship)
    else None
  }

  /** `resolveNamedField`: the value a field's placeholder stands for, empty if there is none. */
  function NamedField(field: string, entity: Option<Identifier>, document: Option<Identifier>,
                      relationship: Option<Identifier>): string {
    if field in ENTITY_FIELDS then (if entity.Some? then entity.value.value else "")
    else if field == "document_id" then (if document.Some? then document.value.value else "")
    else if field == "relationship_id" then (if relationship.Some? then relationship.value.value else "")
    else if field == "entity_type" then (if entity.Some? then entity.value.entityType else "")
    else if field == "label" then (if entity.Some? then entity.value.caption else "")
    else ""
  }

  /** `fillableFor`: may a missing field be added for this tool? */
  predicate MayAdd(target: ToolSchema, field: string) {
    HasPrefix(target.name, PLATFORM_TOOL_PREFIX) ==> field in target.declared
  }

  /** A value that resolution must leave alone. */
  predicate Concrete(v: Value) {
    v.NotString? || (v.s != "" && !IsPlaceholder(v.s))
  }

  /** `needsResolution`. */
  predicate NeedsResolution(args: Args, field: string) {
    field !in args || !Concrete(args[field])
  }

  // -------------------------------------------------- what resolution computes, key by key

  /** A present value after the named placeholders. */
  function AfterNamed(field: string, v: Value, ids: seq<Identifier>): Value {
    var named := NamedField(field, FirstOfKind(ids, Entity), FirstOfKind(ids, Document),
                            FirstOfKind(ids, Relationship));
    if v.Str? && IsPlaceholder(v.s) && named != "" then Str(named) else v
  }

  /** The identifier the automatic fill has for a field. */
  function AutoSource(field: string, ids: seq<Identifier>): Option<Identifier> {
    if field == "entity_id" || field == "start_entity_id" || field == "source_id" then FirstOfKind(ids, Entity)
    else if field == "document_id" then FirstOfKind(ids, Document)
    else None
  }

  function Filled(field: string, v: Value, ids: seq<Identifier>): Value {
    if !Concrete(v) && AutoSource(field, ids).Some? then Str(AutoSource(field, ids).value.value) else v
  }

  const AUTO_FIELDS: set<string> := {"entity_id", "start_entity_id", "source_id", "document_id"}

  /** The fields resolution adds. */
  function Added(args: Args, ids: seq<Identifier>, target: ToolSchema): set<string> {
    set field | field in AUTO_FIELDS && field !in args && AutoSource(field, ids).Some? && MayAdd(target, field)
  }

  function FinalValue(args: Args, ids: seq<Identifier>, field: string): Value
    requires field in args || AutoSource(field, ids).Some?
  {
    if field in args then Filled(field, AfterNamed(field, args[field], ids), ids)
    else Str(AutoSource(field, ids).value.value)
  }

  /** The resolved arguments. */
  function Resolved(args: Args, ids: seq<Identifier>, target: ToolSchema): Args {
    map field | field in args.Keys + Added(args, ids, target) :: FinalValue(args, ids, field)
  }

  /** One field filled if it needs it and may be there. */
  function FillOne(args: Args, field: string, value: string, target: ToolSchema): Args {
    if NeedsResolution(args, field) && (field in args || MayAdd(target, field)) then args[field := Str(value)] else args
  }

  function FillEntity(args: Args, ids: seq<Identifier>, target: ToolSchema): Args {
    var entity := FirstOfKind(ids, Entity);
    if entity.None? then args
    else FillOne(FillOne(FillOne(args, "entity_id", entity.value.value, target),
                         "start_entity_id", entity.value.value, target), "source_id", entity.value.value, target)
  }

  function FillBoth(args: Args, ids: seq<Identifier>, target: ToolSchema): Args {
    var document := FirstOfKind(ids, Document);
    if document.None? then FillEntity(args, ids, target)
    else FillOne(FillEntity(args, ids, target), "document_id", document.value.value, target)
  }

  /** What one key holds after the fills, whatever the other keys hold. */
  lemma FillMeaningAt(args: Args, ids: seq<Identifier>, target: ToolSchema, k: string)
    ensures var out := FillBoth(args, ids, target);
            && (k in out <==> k in args || k in Added(args, ids, target))
            && (k in out ==> out[k] == if k in args then Filled(k, args[k], ids)
                                       else Str(AutoSource(k, ids).value.value))
  {
    FillEntityAt(args, ids, target, k);
    if k !in AUTO_FIELDS {
      assert AutoSource(k, ids).None?;
    }
  }

  lemma FillEntityAt(args: Args, ids: seq<Identifier>, target: ToolSchema, k: string)
    ensures var out := FillEntity(args, ids, target);
            if k == "document_id" then (k in out <==> k in args) && (k in args ==> out[k] == args[k])
            else
              && (k in out <==> k in args || k in Added(args, ids, target))
              && (k in out ==> out[k] == if k in args then Filled(k, args[k], ids)
                                         else Str(AutoSource(k, ids).value.value))
  {
    if k !in AUTO_FIELDS {
      assert AutoSource(k, ids).None?;
    }
  }

  lemma FillMeaning(args: Args, ids: seq<Identifier>, target: ToolSchema)
    ensures var out := FillBoth(args, ids, target);
            && out.Keys == args.Keys + Added(args, ids, target)
            && forall k :: k in out ==>
                             out[k] == if k in args then Filled(k, args[k], ids)
                             else Str(AutoSource(k, ids).value.value)
  {
    var out := FillBoth(args, ids, target);
    forall k ensures k in out <==> k in args || k in Added(args, ids, target) {
      FillMeaningAt(args, ids, target, k);
    }
    forall k | k in out ensures out[k] == if k in args then Filled(k, args[k], ids)
                                          else Str(AutoSource(k, ids).value.value) {
      FillMeaningAt(args, ids, target, k);
    }
  }

  // -------------------------------------------------- in place

  /** The argument map of a step. */
  class ArgMap {
    var args: Args

    constructor (args: Args)
      ensures this.args == args
    {
      this.args := args;
    }

    /** `resolveNamedPlaceholders`, visiting the keys in any order. */
    method ResolveNamed(ids: seq<Identifier>)
      modifies this
      ensures args.Keys == old(args.Keys)
      ensures forall k :: k in args ==> args[k] == AfterNamed(k, old(args)[k], ids)
    {
      var entity, document, relationship := FirstOfKind(ids, Entity), FirstOfKind(ids, Document),
                                            FirstOfKind(ids, Relationship);
      var todo := args.Keys;
      while todo != {}
        invariant todo <= args.Keys == old(args.Keys)
        invariant forall k :: k in args ==>
                                args[k] == if k in todo then old(args)[k] else AfterNamed(k, old(args)[k], ids)
        decreases todo
      {
        var key :| key in todo;
        todo := todo - {key};
        if args[key].Str? && IsPlaceholder(args[key].s) {
          var resolved := NamedField(key, entity, document, relationship);
          if resolved != "" {
            args := args[key := Str(resolved)];
          }
        }
      }
    }

    /** One fill of `autoFillIDFields`. */
    method Fill(field: string, value: string, target: ToolSchema)
      modifies this
      ensures args == FillOne(old(args), field, value, target)
    {
      if !NeedsResolution(args, field) {
        return;
      }
      if field !in args && !MayAdd(target, field) {
        return;
      }
      args := args[field := Str(value)];
    }

    /** `autoFillIDFields`. */
    method AutoFill(ids: seq<Identifier>, target: ToolSchema)
      modifies this
      ensures args.Keys == old(args.Keys) + Added(old(args), ids, target)
      ensures forall k :: k in args ==>
                            args[k] == if k in old(args) then Filled(k, old(args)[k], ids)
                            else Str(AutoSource(k, ids).value.value)
    {
      var entity, document := FirstOfKind(ids, Entity), FirstOfKind(ids, Document);
      if entity.Some? {
        Fill("entity_id", entity.value.value, target);
        Fill("start_entity_id", entity.value.value, target);
        Fill("source_id", entity.value.value, target);
      }
      assert args == FillEntity(old(args), ids, target);
      if document.Some? {
        Fill("document_id", document.value.value, target);
      }
      FillMeaning(old(args), ids, target);
    }

    /** `ResolveDependentArgsForTarget`, given the identifiers extracted from the prior content. */
    method Resolve(ids: seq<Identifier>, target: ToolSchema)
      modifies this
      ensures args == Resolved(old(args), ids, target)
    {
      if ids == [] {
        assert Added(args, ids, target) == {};
        return;
      }
      ResolveNamed(ids);
      AutoFill(ids, target);
    }
  }

  // -------------------------------------------------- what it guarantees

  /** Nothing is removed, and only missing, empty or placeholder values change. */
  lemma OnlyPlaceholdersChange(args: Args, ids: seq<Identifier>, target: ToolSchema, field: string)
    ensures var out := Resolved(args, ids, target);
            && (field in args ==> field in out)
            && (field in args && Concrete(args[field]) ==> out[field] == args[field])
            && (field in out && field !in args ==> field in AUTO_FIELDS)
  {
  }

  /** A changed or added ID field holds the first identifier of that field's kind. */
  lemma FillsAreOfTheFieldsKind(args: Args, ids: seq<Identifier>, target: ToolSchema, field: string)
    requires field in Resolved(args, ids, target)
    requires field !in args || Resolved(args, ids, target)[field] != args[field]
    ensures var v := Resolved(args, ids, target)[field];
            && v.Str?
            && (KindOfField(field).Some? ==>
                  FirstOfKind(ids, KindOfField(field).value).Some?
                  && v.s == FirstOfKind(ids, KindOfField(field).value).value.value)
            && (KindOfField(field).None? ==>
                  && (field == "entity_type" || field == "label") && FirstOfKind(ids, Entity).Some?
                  && v.s == if field == "label" then FirstOfKind(ids, Entity).value.caption
                            else FirstOfKind(ids, Entity).value.entityType)
  {
    if field in args {
      var named := AfterNamed(field, args[field], ids);
      if named != args[field] {
        NamedIsOfTheFieldsKind(field, ids);
      }
    }
    AutoIsOfTheFieldsKind(field, ids);
  }

  lemma NamedIsOfTheFieldsKind(field: string, ids: seq<Identifier>)
    ensures var named := NamedField(field, FirstOfKind(ids, Entity), FirstOfKind(ids, Document),
                                    FirstOfKind(ids, Relationship));
            named != "" ==>
              && (KindOfField(field).Some? ==>
                    FirstOfKind(ids, KindOfField(field).value).Some?
                    && named == FirstOfKind(ids, KindOfField(field).value).value.value)
              && (KindOfField(field).None? ==>
                    && (field == "entity_type" || field == "label") && FirstOfKind(ids, Entity).Some?
                    && named == if field == "label" then FirstOfKind(ids, Entity).value.caption
                                else FirstOfKind(ids, Entity).value.entityType)
  {
  }

  lemma AutoIsOfTheFieldsKind(field: string, ids: seq<Identifier>)
    ensures AutoSource(field, ids).Some? ==>
              KindOfField(field).Some? && AutoSource(field, ids) == FirstOfKind(ids, KindOfField(field).value)
  {
  }

  /** A platform tool gets no key its schema does not declare, and none at all when the schema is unknown. */
  lemma PlatformToolsGetDeclaredKeysOnly(args: Args, ids: seq<Identifier>, target: ToolSchema)
    requires HasPrefix(target.name, PLATFORM_TOOL_PREFIX)
    ensures Resolved(args, ids, target).Keys <= args.Keys + target.declared
  {
  }

  lemma ResolvedAgain(args: Args, ids: seq<Identifier>, target: ToolSchema, field: string)
    requires field in Resolved(args, ids, target)
    ensures FinalValue(Resolved(args, ids, target), ids, field) == Resolved(args, ids, target)[field]
  {
  }

  /** Resolving twice is resolving once. */
  lemma ResolutionIsIdempotent(args: Args, ids: seq<Identifier>, target: ToolSchema)
    ensures Resolved(Resolved(args, ids, target), ids, target) == Resolved(args, ids, target)
  {
    var once := Resolved(args, ids, target);
    assert Added(args, ids, target) <= once.Keys && args.Keys <= once.Keys;
    assert Added(once, ids, target) <= Added(args, ids, target);
    assert Added(once, ids, target) == {};
    forall field | field in once ensures FinalValue(once, ids, field) == once[field] {
      ResolvedAgain(args, ids, target, field);
    }
  }
}
