/**
 The two verdict collectors as the mutable objects they are, each proved against
 the verdict rules, and the push handlers that use them.
 */
module Batches {
  import opened Prelude
  import opened Text
  import opened Verdicts
  import opened VerdictLaws

  /** The collector of the entity and ontology lanes. */
  class Batch {
    const verb: Verb
    var ids: seq<string>
    var known: set<string>
    var results: map<string, SyncResult>
    var defects: seq<Defect>

    ghost predicate Valid()
      reads this
    {
      known == (set id | id in ids) && results.Keys <= known
    }

    ghost function View(): State
      reads this
    {
      State(verb, ids, results, defects)
    }

    constructor (verb: Verb, requested: seq<string>)
      ensures Valid() && View() == Open(verb, requested)
    {
      this.verb := verb;
      ids, known, results, defects := [], {}, map[], [];
      new;
      for i := 0 to |requested|
        invariant Valid() && ids == RequestIds(requested[..i]) && results == map[] && defects == []
      {
        var id := requested[i];
        assert requested[..i + 1][..i] == requested[..i];
        if id != "" && id !in known {
          known := known + {id};
          ids := ids + [id];
        }
      }
      assert requested[..|requested|] == requested;
    }

    method Store(r: SyncResult)
      requires Valid()
      modifies this
      ensures Valid() && View() == Verdicts.Store(old(View()), r)
    {
      if r.id !in known {
        defects := defects + [NotInBatch(r.id)];
        return;
      }
      if r.id in results {
        defects := defects + [Duplicate(r.id)];
      }
      results := results[r.id := r];
    }

    method ReasonCode(id: string, code: string) returns (out: string)
      requires Valid()
      modifies this`defects
      ensures Valid() && defects == old(defects) + CodeDefects(id, code) && out == NormalizeCode(code).0
    {
      var (normalized, refused) := NormalizeCode(code);
      if refused.Some? {
        defects := defects + [RefusedCode(id, refused.value)];
      }
      out := normalized;
    }

    method Created(id: string, externalId: string)
      requires Valid()
      modifies this
      ensures Valid() && View() == Apply(old(View()), Call.Created(id, externalId))
    {
      Store(SyncResult(id, CREATED, externalId, NO_PROSE, "", NO_PROSE));
    }

    method Updated(id: string, externalId: string)
      requires Valid()
      modifies this
      ensures Valid() && View() == Apply(old(View()), Call.Updated(id, externalId))
    {
      Store(SyncResult(id, UPDATED, externalId, NO_PROSE, "", NO_PROSE));
    }

    method Withdrawn(id: string)
      requires Valid()
      modifies this
      ensures Valid() && View() == Apply(old(View()), Call.Withdrawn(id))
    {
      Store(SyncResult(id, WITHDRAWN, "", NO_PROSE, "", NO_PROSE));
    }

    method Skipped(id: string)
      requires Valid()
      modifies this
      ensures Valid() && View() == Apply(old(View()), Call.Skipped(id))
    {
      Store(SyncResult(id, SKIPPED, "", NO_PROSE, "", NO_PROSE));
    }

    method SkippedReason(id: string, code: string, detail: string)
      requires Valid()
      modifies this
      ensures Valid() && View() == Apply(old(View()), Call.SkippedReason(id, code, detail))
    {
      var out := ReasonCode(id, code);
      Store(SyncResult(id, SKIPPED, "", NO_PROSE, out, Plain(Trim(detail))));
    }

    method Failed(id: string, reason: string)
      requires Valid()
      modifies this
      ensures Valid() && View() == Apply(old(View()), Call.Failed(id, reason))
      ensures View() == Verdicts.Store(old(View()), FailedVerdict(id, reason))
    {
      var prose, code := Plain(reason), "";
      if reason == "" {
        prose, code := NO_REASON_PROSE, NO_REASON;
      }
      Store(SyncResult(id, FAILED, "", prose, code, prose));
    }

    method FailedErr(id: string, err: Option<string>)
      requires Valid()
      modifies this
      ensures Valid() && View() == Apply(old(View()), Call.FailedErr(id, err))
    {
      Failed(id, if err.Some? then err.value else "");
    }

    method FailedReason(id: string, code: string, detail: string)
      requires Valid()
      modifies this
      ensures Valid() && View() == Apply(old(View()), Call.FailedReason(id, code, detail))
    {
      var prose := Plain(Trim(detail));
      var normalized := ReasonCode(id, code);
      if Trim(detail) == "" {
        prose := NO_REASON_PROSE;
        if normalized == "" {
          normalized := NO_REASON;
        }
      }
      Store(SyncResult(id, FAILED, "", prose, normalized, prose));
    }

    method Record(r: SyncResult)
      requires Valid()
      modifies this
      ensures Valid() && View() == Apply(old(View()), Call.Record(r))
    {
      var stored := r;
      if !IsMintedReplay(r) {
        var code := ReasonCode(r.id, r.code);
        stored := r.(code := code);
      }
      Store(stored);
    }

    method Pending() returns (out: seq<string>)
      requires Valid()
      ensures out == Verdicts.Pending(View())
    {
      out := [];
      for i := 0 to |ids|
        invariant out == Missing(ids[..i], results)
      {
        assert ids[..i + 1][..i] == ids[..i];
        if ids[i] !in results {
          out := out + [ids[i]];
        }
      }
      assert ids[..|ids|] == ids;
    }

    /** One turn of `Results`: what the reply says of an id, and the defect behind it. */
    method ResultFor(id: string) returns (verdict: SyncResult, defect: seq<Defect>)
      requires Valid()
      ensures (verdict, defect) == JudgeId(EntityLane, View(), id)
    {
      if id !in results {
        return NormalizedFailure(id, NO_VERDICT, NoVerdictFor(EntityLane)), [NoVerdict(id)];
      }
      var r := results[id];
      var violation := OutcomeViolation(verb, r.outcome, id);
      if violation.Some? {
        return violation.value.0, [violation.value.1];
      }
      if (r.outcome == CREATED || r.outcome == UPDATED) && r.externalId == "" {
        return NormalizedFailure(id, MISSING_EXTERNAL_ID, WithoutExternalId(r.outcome)), [NoExternalId(r.outcome, id)];
      }
      return r, [];
    }

    method Results() returns (out: seq<SyncResult>, found: seq<Defect>)
      requires Valid()
      ensures out == Reply(EntityLane, View()) && found == AllDefects(EntityLane, View())
    {
      out, found := [], defects;
      for i := 0 to |ids|
        invariant out == RepliesFor(EntityLane, View(), ids[..i])
        invariant found == defects + DefectsFor(EntityLane, View(), ids[..i])
      {
        var verdict, defect := ResultFor(ids[i]);
        RepliesSnoc(EntityLane, View(), ids, i);
        out, found := out + [verdict], found + defect;
      }
      assert ids[..|ids|] == ids;
    }

    /** A component's calls, in order. */
    method Play(calls: seq<Call>)
      requires Valid()
      modifies this
      ensures Valid() && View() == Verdicts.Play(old(View()), calls)
    {
      for i := 0 to |calls|
        invariant Valid() && View() == Verdicts.Play(old(View()), calls[..i])
      {
        assert calls[..i + 1][..i] == calls[..i];
        match calls[i] {
          case Created(id, ext) => Created(id, ext);
          case Updated(id, ext) => Updated(id, ext);
          case Withdrawn(id) => Withdrawn(id);
          case Skipped(id) => Skipped(id);
          case SkippedReason(id, code, detail) => SkippedReason(id, code, detail);
          case Failed(id, reason) => Failed(id, reason);
          case FailedErr(id, err) => FailedErr(id, err);
          case FailedReason(id, code, detail) => FailedReason(id, code, detail);
          case Record(r) => Record(r);
        }
      }
      assert calls[..|calls|] == calls;
    }
  }

  /** The collector of the relationship lanes, a second implementation of the same rules. */
  class RelationshipBatch {
    const verb: Verb
    var ids: seq<string>
    var known: set<string>
    var results: map<string, SyncResult>
    var defects: seq<Defect>

    ghost predicate Valid()
      reads this
    {
      known == (set id | id in ids) && results.Keys <= known
    }

    ghost function View(): State
      reads this
    {
      State(verb, ids, results, defects)
    }

    constructor (verb: Verb, requested: seq<string>)
      ensures Valid() && View() == Open(verb, requested)
    {
      this.verb := verb;
      ids, known, results, defects := [], {}, map[], [];
      new;
      for i := 0 to |requested|
        invariant Valid() && ids == RequestIds(requested[..i]) && results == map[] && defects == []
      {
        var id := requested[i];
        assert requested[..i + 1][..i] == requested[..i];
        if id != "" && id !in known {
          known := known + {id};
          ids := ids + [id];
        }
      }
      assert requested[..|requested|] == requested;
    }

    method Store(r: SyncResult)
      requires Valid()
      modifies this
      ensures Valid() && View() == Verdicts.Store(old(View()), r)
    {
      if r.id !in known {
        defects := defects + [NotInBatch(r.id)];
        return;
      }
      if r.id in results {
        defects := defects + [Duplicate(r.id)];
      }
      results := results[r.id := r];
    }

    method ReasonCode(id: string, code: string) returns (out: string)
      requires Valid()
      modifies this`defects
      ensures Valid() && defects == old(defects) + CodeDefects(id, code) && out == NormalizeCode(code).0
    {
      var (normalized, refused) := NormalizeCode(code);
      if refused.Some? {
        defects := defects + [RefusedCode(id, refused.value)];
      }
      out := normalized;
    }

    method Created(id: string, externalId: string)
      requires Valid()
      modifies this
      ensures Valid() && View() == Apply(old(View()), Call.Created(id, externalId))
    {
      Store(SyncResult(id, CREATED, externalId, NO_PROSE, "", NO_PROSE));
    }

    method Updated(id: string, externalId: string)
      requires Valid()
      modifies this
      ensures Valid() && View() == Apply(old(View()), Call.Updated(id, externalId))
    {
      Store(SyncResult(id, UPDATED, externalId, NO_PROSE, "", NO_PROSE));
    }

    method Withdrawn(id: string)
      requires Valid()
      modifies this
      ensures Valid() && View() == Apply(old(View()), Call.Withdrawn(id))
    {
      Store(SyncResult(id, WITHDRAWN, "", NO_PROSE, "", NO_PROSE));
    }

    method Skipped(id: string)
      requires Valid()
      modifies this
      ensures Valid() && View() == Apply(old(View()), Call.Skipped(id))
    {
      Store(SyncResult(id, SKIPPED, "", NO_PROSE, "", NO_PROSE));
    }

    method SkippedReason(id: string, code: string, detail: string)
      requires Valid()
      modifies this
      ensures Valid() && View() == Apply(old(View()), Call.SkippedReason(id, code, detail))
    {
      var out := ReasonCode(id, code);
      Store(SyncResult(id, SKIPPED, "", NO_PROSE, out, Plain(Trim(detail))));
    }

    method Failed(id: string, reason: string)
      requires Valid()
      modifies this
      ensures Valid() && View() == Apply(old(View()), Call.Failed(id, reason))
      ensures View() == Verdicts.Store(old(View()), FailedVerdict(id, reason))
    {
      var prose, code := Plain(reason), "";
      if reason == "" {
        prose, code := NO_REASON_PROSE, NO_REASON;
      }
      Store(SyncResult(id, FAILED, "", prose, code, prose));
    }

    method FailedErr(id: string, err: Option<string>)
      requires Valid()
      modifies this
      ensures Valid() && View() == Apply(old(View()), Call.FailedErr(id, err))
    {
      Failed(id, if err.Some? then err.value else "");
    }

    method FailedReason(id: string, code: string, detail: string)
      requires Valid()
      modifies this
      ensures Valid() && View() == Apply(old(View()), Call.FailedReason(id, code, detail))
    {
      var prose := Plain(Trim(detail));
      var normalized := ReasonCode(id, code);
      if Trim(detail) == "" {
        prose := NO_REASON_PROSE;
        if normalized == "" {
          normalized := NO_REASON;
        }
      }
      Store(SyncResult(id, FAILED, "", prose, normalized, prose));
    }

    method Record(r: SyncResult)
      requires Valid()
      modifies this
      ensures Valid() && View() == Apply(old(View()), Call.Record(r))
    {
      var stored := r;
      if !IsMintedReplay(r) {
        var code := ReasonCode(r.id, r.code);
        stored := r.(code := code);
      }
      Store(stored);
    }

    method Pending() returns (out: seq<string>)
      requires Valid()
      ensures out == Verdicts.Pending(View())
    {
      out := [];
      for i := 0 to |ids|
        invariant out == Missing(ids[..i], results)
      {
        assert ids[..i + 1][..i] == ids[..i];
        if ids[i] !in results {
          out := out + [ids[i]];
        }
      }
      assert ids[..|ids|] == ids;
    }

    /** One turn of `Results`: what the reply says of an id, and the defect behind it. */
    method ResultFor(id: string) returns (verdict: SyncResult, defect: seq<Defect>)
      requires Valid()
      ensures (verdict, defect) == JudgeId(RelationshipLane, View(), id)
    {
      if id !in results {
        return NormalizedFailure(id, NO_VERDICT, NoVerdictFor(RelationshipLane)), [NoVerdict(id)];
      }
      var r := results[id];
      var violation := OutcomeViolation(verb, r.outcome, id);
      if violation.Some? {
        return violation.value.0, [violation.value.1];
      }
      if (r.outcome == CREATED || r.outcome == UPDATED) && r.externalId == "" {
        return NormalizedFailure(id, MISSING_EXTERNAL_ID, WithoutExternalId(r.outcome)), [NoExternalId(r.outcome, id)];
      }
      return r, [];
    }

    method Results() returns (out: seq<SyncResult>, found: seq<Defect>)
      requires Valid()
      ensures out == Reply(RelationshipLane, View()) && found == AllDefects(RelationshipLane, View())
    {
      out, found := [], defects;
      for i := 0 to |ids|
        invariant out == RepliesFor(RelationshipLane, View(), ids[..i])
        invariant found == defects + DefectsFor(RelationshipLane, View(), ids[..i])
      {
        var verdict, defect := ResultFor(ids[i]);
        RepliesSnoc(RelationshipLane, View(), ids, i);
        out, found := out + [verdict], found + defect;
      }
      assert ids[..|ids|] == ids;
    }

    /** A component's calls, in order. */
    method Play(calls: seq<Call>)
      requires Valid()
      modifies this
      ensures Valid() && View() == Verdicts.Play(old(View()), calls)
    {
      for i := 0 to |calls|
        invariant Valid() && View() == Verdicts.Play(old(View()), calls[..i])
      {
        assert calls[..i + 1][..i] == calls[..i];
        match calls[i] {
          case Created(id, ext) => Created(id, ext);
          case Updated(id, ext) => Updated(id, ext);
          case Withdrawn(id) => Withdrawn(id);
          case Skipped(id) => Skipped(id);
          case SkippedReason(id, code, detail) => SkippedReason(id, code, detail);
          case Failed(id, reason) => Failed(id, reason);
          case FailedErr(id, err) => FailedErr(id, err);
          case FailedReason(id, code, detail) => FailedReason(id, code, detail);
          case Record(r) => Record(r);
        }
      }
      assert calls[..|calls|] == calls;
    }
  }

  /** Both collectors driven by the same ids, lane verb and calls. */
  method RunBoth(verb: Verb, requested: seq<string>, calls: seq<Call>)
    returns (e: seq<SyncResult>, r: seq<SyncResult>, eFound: seq<Defect>, rFound: seq<Defect>, ePending: seq<string>,
             rPending: seq<string>)
    ensures |e| == |r| == |RequestIds(requested)|
    ensures forall i :: 0 <= i < |e| ==> SameButForLane(e[i], r[i])
    ensures forall i :: 0 <= i < |e| && LastCall(calls, RequestIds(requested)[i]).Some? ==> e[i] == r[i]
    ensures eFound == rFound && ePending == rPending
  {
    var b := new Batch(verb, requested);
    b.Play(calls);
    e, eFound := b.Results();
    ePending := b.Pending();
    var c := new RelationshipBatch(verb, requested);
    c.Play(calls);
    r, rFound := c.Results();
    rPending := c.Pending();
    LanesAgree(verb, requested, calls);
    ReplyIsTheLastVerdicts(EntityLane, verb, requested, calls);
  }

  // -------------------------------------------------- serving a push

  /** A record of a push: its id and its homogeneity label (entity type or predicate). */
  datatype Item = Item(id: string, kind: string)

  /** A request body: not decodable, or a label with its records. */
  datatype Body = Undecodable | Body(kind: string, records: seq<Item>)

  datatype PushError = Processed | Throttled(after: int) | BatchFault

  /** What a component does with a batch: its recording calls, then what it returns. */
  datatype Behaviour = Behaviour(calls: seq<Call>, err: PushError)

  function IdsOf(records: seq<Item>): seq<string> {
    seq(|records|, i requires 0 <= i < |records| => records[i].id)
  }

  /** The body decodes, names its kind, and holds records of that kind only. */
  predicate WellFormed(body: Body) {
    body.Body? && body.kind != "" && forall i :: 0 <= i < |body.records| ==>
                                                   body.records[i].kind == "" || body.records[i].kind == body.kind
  }

  /**
   A push is refused for a body that does not decode, names no kind, or holds a record that names another kind;
   for no other.
   */
  lemma WellFormedMeans(kind: string, front: seq<Item>, item: Item, back: seq<Item>)
    ensures !WellFormed(Undecodable) && !WellFormed(Body("", front)) && (kind != "" ==> WellFormed(Body(kind, [])))
    ensures WellFormed(Body(kind, front + [item] + back)) <==>
            && WellFormed(Body(kind, front)) && WellFormed(Body(kind, back))
            && (item.kind == "" || item.kind == kind)
  {
    var all := front + [item] + back;
    assert forall i :: 0 <= i < |front| ==> all[i] == front[i];
    assert all[|front|] == item;
    assert forall i :: 0 <= i < |back| ==> all[|front| + 1 + i] == back[i];
  }

  function ErrorStatus(err: PushError): nat {
    if err.Throttled? && err.after > 0 then 429 else 500
  }

  /** `decodeSync` and `decodeRelationshipSync`: the homogeneity loop. */
  method Decode(body: Body) returns (ok: bool)
    ensures ok <==> WellFormed(body)
  {
    if body.Undecodable? || body.kind == "" {
      return false;
    }
    for i := 0 to |body.records|
      invariant forall j :: 0 <= j < i ==> body.records[j].kind == "" || body.records[j].kind == body.kind
    {
      if body.records[i].kind != "" && body.records[i].kind != body.kind {
        return false;
      }
    }
    return true;
  }

  /** `servePush`: the component is called only past the gate, and every 200 is a reply the platform accepts. */
  method ServePush(connectPending: bool, verb: Verb, body: Body, component: Behaviour)
    returns (status: nat, results: seq<SyncResult>, pushed: bool)
    ensures connectPending ==> status == 503 && !pushed
    ensures !connectPending && !WellFormed(body) ==> status == 400 && !pushed
    ensures !connectPending && WellFormed(body) ==>
              && (pushed <==> body.records != [])
              && (body.records == [] ==> status == 200 && results == [])
              && (pushed && component.err != Processed ==>
                    status == if component.err.Throttled? && component.err.after > 0 then 429 else 500)
              && (pushed && component.err == Processed ==>
                    status == 200 && results ==
                                     Reply(EntityLane, FinalState(verb, IdsOf(body.records), component.calls)))
    ensures status == 200 ==> !connectPending && WellFormed(body) && PlatformAccepts(verb, IdsOf(body.records), results)
    ensures status != 200 ==> results == []
  {
    results, pushed := [], false;
    if connectPending {
      return 503, [], false;
    }
    var ok := Decode(body);
    if !ok {
      return 400, [], false;
    }
    if body.records == [] {
      return 200, [], false;
    }
    var b := new Batch(verb, IdsOf(body.records));
    b.Play(component.calls);
    pushed := true;
    if component.err != Processed {
      return ErrorStatus(component.err), [], true;
    }
    var found;
    results, found := b.Results();
    status := 200;
    EveryReplyIsAccepted(EntityLane, verb, IdsOf(body.records), component.calls);
  }

  /** `serveRelationshipPush`: the same for the relationship lanes. */
  method ServeRelationshipPush(connectPending: bool, verb: Verb, body: Body, component: Behaviour)
    returns (status: nat, results: seq<SyncResult>, pushed: bool)
    ensures connectPending ==> status == 503 && !pushed
    ensures !connectPending && !WellFormed(body) ==> status == 400 && !pushed
    ensures !connectPending && WellFormed(body) ==>
              && (pushed <==> body.records != [])
              && (body.records == [] ==> status == 200 && results == [])
              && (pushed && component.err != Processed ==>
                    status == if component.err.Throttled? && component.err.after > 0 then 429 else 500)
              && (pushed && component.err == Processed ==>
                    status == 200 && results ==
                                     Reply(RelationshipLane, FinalState(verb, IdsOf(body.records), component.calls)))
    ensures status == 200 ==> !connectPending && WellFormed(body) && PlatformAccepts(verb, IdsOf(body.records), results)
    ensures status != 200 ==> results == []
  {
    results, pushed := [], false;
    if connectPending {
      return 503, [], false;
    }
    var ok := Decode(body);
    if !ok {
      return 400, [], false;
    }
    if body.records == [] {
      return 200, [], false;
    }
    var b := new RelationshipBatch(verb, IdsOf(body.records));
    b.Play(component.calls);
    pushed := true;
    if component.err != Processed {
      return ErrorStatus(component.err), [], true;
    }
    var found;
    results, found := b.Results();
    status := 200;
    EveryReplyIsAccepted(RelationshipLane, verb, IdsOf(body.records), component.calls);
  }
}
