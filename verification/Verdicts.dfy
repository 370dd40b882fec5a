/**
 The egress verdict rules: outcomes, reason codes, what each recording call of a
 component stores, and the reply built from a batch. Prose is kept as what it
 says rather than as its wording, and defects likewise.
 */
module Verdicts {
  import opened Prelude
  import opened Text

  type Outcome = string

  const CREATED := "created"
  const UPDATED := "updated"
  const SKIPPED := "skipped"
  const FAILED := "failed"
  const WITHDRAWN := "withdrawn"

  /** `Outcome.Valid`. */
  predicate Recognized(o: Outcome) {
    o == CREATED || o == UPDATED || o == SKIPPED || o == FAILED || o == WITHDRAWN
  }

  datatype Verb = Push | Withdraw {
    /** `laneVerb.permits`. */
    predicate Permits(o: Outcome) {
      if o == SKIPPED || o == FAILED then true
      else if o == CREATED || o == UPDATED then this == Push
      else o == WITHDRAWN && this == Withdraw
    }
  }

  /** Which kind of record a batch carries; it shows only in the no-verdict prose. */
  datatype Lane = EntityLane | RelationshipLane

  datatype Prose =
    | Plain(text: string)
    | NoVerdictFor(lane: Lane)
    | UnrecognizedOutcome(outcome: Outcome)
    | NotOnThisLane(outcome: Outcome, verb: Verb)
    | WithoutExternalId(outcome: Outcome)

  const NO_PROSE := Plain("")
  const NO_REASON_PROSE := Plain("component reported a failure without a reason")

  datatype SyncResult = SyncResult(id: string, outcome: Outcome, externalId: string, error: Prose, code: string,
                                   detail: Prose)

  const NO_VERDICT := "sdk:no_verdict"
  const UNRECOGNIZED_OUTCOME := "sdk:unrecognized_outcome"
  const MISSING_EXTERNAL_ID := "sdk:missing_external_record_id"
  const NO_REASON := "sdk:no_reason"

  const PLATFORM_PREFIX := "platform:"
  const SDK_PREFIX := "sdk:"
  const MAX_CODE_LEN: nat := 64

  datatype Refusal = TooLong | HasWhitespace | ReservedPrefix(prefix: string)

  datatype Defect =
    | RefusedCode(id: string, why: Refusal)
    | NotInBatch(id: string)
    | Duplicate(id: string)
    | NoVerdict(id: string)
    | BadOutcome(outcome: Outcome, id: string)
    | LaneOutcome(outcome: Outcome, id: string, verb: Verb)
    | NoExternalId(outcome: Outcome, id: string)

  /** `normalizeReasonCode`: the code to record, and why it was refused if it was. */
  function NormalizeCode(code: string): (string, Option<Refusal>) {
    var trimmed := Trim(code);
    if trimmed == "" then ("", None)
    else if ByteLen(trimmed) > MAX_CODE_LEN then ("", Some(TooLong))
    else if HasSpace(trimmed) then ("", Some(HasWhitespace))
    else if HasPrefix(trimmed, PLATFORM_PREFIX) then ("", Some(ReservedPrefix(PLATFORM_PREFIX)))
    else if HasPrefix(trimmed, SDK_PREFIX) then ("", Some(ReservedPrefix(SDK_PREFIX)))
    else (trimmed, None)
  }

  predicate IsMinted(code: string) {
    code == NO_VERDICT || code == UNRECOGNIZED_OUTCOME || code == MISSING_EXTERNAL_ID || code == NO_REASON
  }

  /** `isSDKMintedReplay`. */
  predicate IsMintedReplay(r: SyncResult) {
    r.outcome == FAILED && IsMinted(r.code)
  }

  // -------------------------------------------------- recording

  /** The recording calls of a batch. */
  datatype Call =
    | Created(id: string, externalId: string)
    | Updated(id: string, externalId: string)
    | Withdrawn(id: string)
    | Skipped(id: string)
    | SkippedReason(id: string, code: string, detail: string)
    | Failed(id: string, reason: string)
    | FailedErr(id: string, err: Option<string>)
    | FailedReason(id: string, code: string, detail: string)
    | Record(r: SyncResult)

  function CallId(c: Call): string {
    if c.Record? then c.r.id else c.id
  }

  function FailedVerdict(id: string, reason: string): SyncResult {
    if reason == "" then SyncResult(id, FAILED, "", NO_REASON_PROSE, NO_REASON, NO_REASON_PROSE)
    else SyncResult(id, FAILED, "", Plain(reason), "", Plain(reason))
  }

  /** The verdict a call stores. */
  function Verdict(c: Call): SyncResult {
    match c
    case Created(id, ext) => SyncResult(id, CREATED, ext, NO_PROSE, "", NO_PROSE)
    case Updated(id, ext) => SyncResult(id, UPDATED, ext, NO_PROSE, "", NO_PROSE)
    case Withdrawn(id) => SyncResult(id, WITHDRAWN, "", NO_PROSE, "", NO_PROSE)
    case Skipped(id) => SyncResult(id, SKIPPED, "", NO_PROSE, "", NO_PROSE)
    case SkippedReason(id, code, detail) =>
      SyncResult(id, SKIPPED, "", NO_PROSE, NormalizeCode(code).0, Plain(Trim(detail)))
    case Failed(id, reason) => FailedVerdict(id, reason)
    case FailedErr(id, err) => FailedVerdict(id, if err.Some? then err.value else "")
    case FailedReason(id, code, detail) =>
      var normalized := NormalizeCode(code).0;
      if Trim(detail) == "" then
        SyncResult(id, FAILED, "", NO_REASON_PROSE, if normalized == "" then NO_REASON else normalized, NO_REASON_PROSE)
      else SyncResult(id, FAILED, "", Plain(Trim(detail)), normalized, Plain(Trim(detail)))
    case Record(r) => if IsMintedReplay(r) then r else r.(code := NormalizeCode(r.code).0)
  }

  /** The code a call has checked, if any. */
  function CheckedCode(c: Call): Option<string> {
    match c
    case SkippedReason(_, code, _) => Some(code)
    case FailedReason(_, code, _) => Some(code)
    case Record(r) => if IsMintedReplay(r) then None else Some(r.code)
    case _ => None
  }

  function CodeDefects(id: string, code: string): seq<Defect> {
    var refused := NormalizeCode(code).1;
    if refused.Some? then [RefusedCode(id, refused.value)] else []
  }

  function CallDefects(c: Call): seq<Defect> {
    if CheckedCode(c).Some? then CodeDefects(CallId(c), CheckedCode(c).value) else []
  }

  // -------------------------------------------------- batches

  datatype State = State(verb: Verb, ids: seq<string>, results: map<string, SyncResult>, defects: seq<Defect>)

  /** The ids a batch answers for: each distinct non-empty requested id, where it first occurs. */
  function RequestIds(requested: seq<string>): seq<string> {
    if requested == [] then []
    else
      var n := |requested| - 1;
      var ids := RequestIds(requested[..n]);
      if requested[n] == "" || requested[n] in ids then ids else ids + [requested[n]]
  }

  function Open(verb: Verb, requested: seq<string>): State {
    State(verb, RequestIds(requested), map[], [])
  }

  /** `record`: an id outside the batch is dropped, the last verdict for an id wins. */
  function Store(s: State, r: SyncResult): State {
    if r.id !in s.ids then s.(defects := s.defects + [NotInBatch(r.id)])
    else s.(defects := s.defects
         + (if r.id in s.results then [Duplicate(r.id)] else []), results := s.results[r.id := r])
  }

  function Apply(s: State, c: Call): State {
    Store(s.(defects := s.defects + CallDefects(c)), Verdict(c))
  }

  function Play(s: State, calls: seq<Call>): State {
    if calls == [] then s else Apply(Play(s, calls[..|calls| - 1]), calls[|calls| - 1])
  }

  function Pending(s: State): seq<string> {
    Missing(s.ids, s.results)
  }

  function Missing(ids: seq<string>, results: map<string, SyncResult>): seq<string> {
    if ids == [] then []
    else
      var n := |ids| - 1;
      Missing(ids[..n], results) + if ids[n] in results then [] else [ids[n]]
  }

  // -------------------------------------------------- replies

  /** `normalizedFailure`. */
  function NormalizedFailure(id: string, code: string, detail: Prose): SyncResult {
    SyncResult(id, FAILED, "", detail, code, detail)
  }

  /** `outcomeViolation`: the failure and the defect an outcome is turned into, if the lane does not accept it. */
  function OutcomeViolation(verb: Verb, o: Outcome, id: string): Option<(SyncResult, Defect)> {
    if !Recognized(o) then
      Some((NormalizedFailure(id, UNRECOGNIZED_OUTCOME, UnrecognizedOutcome(o)), BadOutcome(o, id)))
    else if !verb.Permits(o) then
      Some((NormalizedFailure(id, UNRECOGNIZED_OUTCOME, NotOnThisLane(o, verb)), LaneOutcome(o, id, verb)))
    else None
  }

  /** What the reply says of one verdict, and the defect behind it if it had to be replaced. */
  function Judge(verb: Verb, id: string, r: SyncResult): (SyncResult, seq<Defect>) {
    if !Recognized(r.outcome) then
      (NormalizedFailure(id, UNRECOGNIZED_OUTCOME, UnrecognizedOutcome(r.outcome)), [BadOutcome(r.outcome, id)])
    else if !verb.Permits(r.outcome) then
      (NormalizedFailure(id, UNRECOGNIZED_OUTCOME, NotOnThisLane(r.outcome, verb)), [LaneOutcome(r.outcome, id, verb)])
    else if (r.outcome == CREATED || r.outcome == UPDATED) && r.externalId == "" then
      (NormalizedFailure(id, MISSING_EXTERNAL_ID, WithoutExternalId(r.outcome)), [NoExternalId(r.outcome, id)])
    else (r, [])
  }

  function JudgeId(lane: Lane, s: State, id: string): (SyncResult, seq<Defect>) {
    if id in s.results then Judge(s.verb, id, s.results[id])
    else (NormalizedFailure(id, NO_VERDICT, NoVerdictFor(lane)), [NoVerdict(id)])
  }

  function RepliesFor(lane: Lane, s: State, ids: seq<string>): seq<SyncResult> {
    seq(|ids|, i requires 0 <= i < |ids| => JudgeId(lane, s, ids[i]).0)
  }

  function DefectsFor(lane: Lane, s: State, ids: seq<string>): seq<Defect> {
    if ids == [] then []
    else DefectsFor(lane, s, ids[..|ids| - 1]) + JudgeId(lane, s, ids[|ids| - 1]).1
  }

  /** `Results`: the verdicts of the reply. */
  function Reply(lane: Lane, s: State): seq<SyncResult> {
    RepliesFor(lane, s, s.ids)
  }

  /** `Results`: the defects the server logs. */
  function AllDefects(lane: Lane, s: State): seq<Defect> {
    s.defects + DefectsFor(lane, s, s.ids)
  }
}
