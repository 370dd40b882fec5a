/**
 What a reply says, spelled out call by call with the words and codes of the
 wire, and which defects are logged, for every sequence of component calls.
 */
module ReplyMeaning {
  import opened Prelude
  import opened Text
  import opened Verdicts
  import opened VerdictLaws

  /** The outcomes a lane accepts. */
  predicate Accepts(verb: Verb, o: string) {
    if verb == Push then o == "created" || o == "updated" || o == "skipped" || o == "failed"
    else o == "withdrawn" || o == "skipped" || o == "failed"
  }

  predicate Known(o: string) {
    o == "created" || o == "updated" || o == "skipped" || o == "failed" || o == "withdrawn"
  }

  /** A code as it is kept: trimmed if it is short, without whitespace and in no reserved namespace; else empty. */
  function KeptCode(code: string): string {
    var t := Trim(code);
    if ByteLen(t) <= 64 && !HasSpace(t) && !HasPrefix(t, "platform:") && !HasPrefix(t, "sdk:") then t else ""
  }

  const NO_REASON_GIVEN := Plain("component reported a failure without a reason")

  /** A verdict the SDK puts in the place of one it cannot pass on. */
  predicate Replaced(r: SyncResult, id: string, code: string, why: Prose) {
    r == SyncResult(id, "failed", "", why, code, why)
  }

  /** An outcome as the lane passes it on, or the failure that replaces it. */
  predicate Passes(verb: Verb, r: SyncResult, said: SyncResult) {
    if !Accepts(verb, said.outcome) then
      Replaced(r, said.id, "sdk:unrecognized_outcome",
               if Known(said.outcome) then NotOnThisLane(said.outcome, verb) else UnrecognizedOutcome(said.outcome))
    else if (said.outcome == "created" || said.outcome == "updated") && said.externalId == "" then
      Replaced(r, said.id, "sdk:missing_external_record_id", WithoutExternalId(said.outcome))
    else r == said
  }

  /** A failure as the component gives it: its reason in both places, or the stock reason under its own code. */
  predicate FailsWith(r: SyncResult, id: string, code: string, reason: string) {
    if reason == "" then
      r == SyncResult(id, "failed", "", NO_REASON_GIVEN, if code == "" then "sdk:no_reason" else code, NO_REASON_GIVEN)
    else r == SyncResult(id, "failed", "", Plain(reason), code, Plain(reason))
  }

  /** What the reply says of an id, by the last call made for it. */
  ghost predicate Says(lane: Lane, verb: Verb, id: string, last: Option<Call>, r: SyncResult) {
    match last
    case None => Replaced(r, id, "sdk:no_verdict", NoVerdictFor(lane))
    case Some(Created(_, x)) => Passes(verb, r, SyncResult(id, "created", x, Plain(""), "", Plain("")))
    case Some(Updated(_, x)) => Passes(verb, r, SyncResult(id, "updated", x, Plain(""), "", Plain("")))
    case Some(Withdrawn(_)) => Passes(verb, r, SyncResult(id, "withdrawn", "", Plain(""), "", Plain("")))
    case Some(Skipped(_)) => r == SyncResult(id, "skipped", "", Plain(""), "", Plain(""))
    case Some(SkippedReason(_, code, detail)) =>
      r == SyncResult(id, "skipped", "", Plain(""), KeptCode(code), Plain(Trim(detail)))
    case Some(Failed(_, reason)) => FailsWith(r, id, "", reason)
    case Some(FailedErr(_, err)) => FailsWith(r, id, "", if err.Some? then err.value else "")
    case Some(FailedReason(_, code, detail)) => FailsWith(r, id, KeptCode(code), Trim(detail))
    case Some(Record(said)) =>
      Passes(verb, r, if IsReplay(said) then said else said.(code := KeptCode(said.code)))
  }

  /** A failure the SDK itself put in a reply. */
  predicate IsReplay(r: SyncResult) {
    && r.outcome == "failed"
    && (|| r.code == "sdk:no_verdict" || r.code == "sdk:unrecognized_outcome"
        || r.code == "sdk:missing_external_record_id" || r.code == "sdk:no_reason")
  }

  lemma CodesAreKept(code: string)
    ensures NormalizeCode(code).0 == KeptCode(code)
  {
  }

  lemma JudgedIsPassed(verb: Verb, said: SyncResult)
    ensures Passes(verb, Judge(verb, said.id, said).0, said)
  {
  }

  lemma SkippedAndFailedPass(verb: Verb, said: SyncResult)
    requires said.outcome == "skipped" || said.outcome == "failed"
    ensures Judge(verb, said.id, said).0 == said
  {
  }

  lemma CallSays(lane: Lane, verb: Verb, c: Call)
    ensures Says(lane, verb, CallId(c), Some(c), Judge(verb, CallId(c), Verdict(c)).0)
  {
    VerdictKeepsId(c);
    match c
    case SkippedReason(_, code, _) =>
      CodesAreKept(code);
      SkippedAndFailedPass(verb, Verdict(c));
    case FailedReason(_, code, _) =>
      CodesAreKept(code);
      SkippedAndFailedPass(verb, Verdict(c));
    case Record(said) =>
      CodesAreKept(said.code);
      JudgedIsPassed(verb, Verdict(c));
    case Created(_, _) => JudgedIsPassed(verb, Verdict(c));
    case Updated(_, _) => JudgedIsPassed(verb, Verdict(c));
    case Withdrawn(_) => JudgedIsPassed(verb, Verdict(c));
    case _ => SkippedAndFailedPass(verb, Verdict(c));
  }

  /** Over every call sequence, on either lane: the reply says of each id, in order, what its last call said. */
  lemma ReplySaysWhatWasCalled(lane: Lane, verb: Verb, requested: seq<string>, calls: seq<Call>, i: nat)
    requires i < |RequestIds(requested)|
    ensures var ids, reply := RequestIds(requested), Reply(lane, FinalState(verb, requested, calls));
            |reply| == |ids| && Says(lane, verb, ids[i], LastCall(calls, ids[i]), reply[i])
  {
    ReplyIsTheLastVerdicts(lane, verb, requested, calls);
    var id := RequestIds(requested)[i];
    if LastCall(calls, id).Some? {
      LastCallHasId(calls, id);
      CallSays(lane, verb, LastCall(calls, id).value);
    }
  }

  /** The pending ids come in request order. */
  lemma PendingComeInOrder(ids: seq<string>, id: string, results: map<string, SyncResult>)
    ensures Missing([], results) == []
    ensures Missing(ids + [id], results) == Missing(ids, results) + if id in results then [] else [id]
  {
    assert (ids + [id])[..|ids|] == ids;
  }

  // -------------------------------------------------- the defects of a reply

  /** At least one call for the id. */
  predicate Called(calls: seq<Call>, id: string) {
    exists i :: 0 <= i < |calls| && CallId(calls[i]) == id
  }

  predicate CalledTwice(calls: seq<Call>, id: string) {
    exists i, j :: 0 <= i < j < |calls| && CallId(calls[i]) == id && CallId(calls[j]) == id
  }

  lemma {:induction false} LastCallFindsAny(calls: seq<Call>, id: string)
    ensures LastCall(calls, id).Some? <==> Called(calls, id)
  {
    if calls != [] {
      var n := |calls| - 1;
      LastCallFindsAny(calls[..n], id);
      if i :| 0 <= i < n && CallId(calls[i]) == id {
        assert CallId(calls[..n][i]) == id;
      }
      if Called(calls[..n], id) {
        var i :| 0 <= i < n && CallId(calls[..n][i]) == id;
        assert CallId(calls[i]) == id;
      }
    }
  }

  /** Why a code is refused, if it is. */
  function RefusalOf(code: string): Option<Refusal> {
    var t := Trim(code);
    if ByteLen(t) > 64 then Some(TooLong)
    else if HasSpace(t) then Some(HasWhitespace)
    else if HasPrefix(t, "platform:") then Some(ReservedPrefix("platform:"))
    else if HasPrefix(t, "sdk:") then Some(ReservedPrefix("sdk:"))
    else None
  }

  /** The code a call offers, if it is looked at. */
  function OfferedCode(c: Call): Option<string> {
    match c
    case SkippedReason(_, code, _) => Some(code)
    case FailedReason(_, code, _) => Some(code)
    case Record(r) => if IsReplay(r) then None else Some(r.code)
    case _ => None
  }

  /** The call's code was refused for this reason. */
  predicate Refuses(c: Call, id: string, why: Refusal) {
    CallId(c) == id && OfferedCode(c).Some? && RefusalOf(OfferedCode(c).value) == Some(why)
  }

  lemma RefusalsMean(code: string)
    ensures NormalizeCode(code).1 == RefusalOf(code)
  {
  }

  lemma CallDefectsMean(c: Call, d: Defect)
    ensures d in CallDefects(c) <==> d.RefusedCode? && Refuses(c, d.id, d.why)
  {
    if OfferedCode(c).Some? {
      RefusalsMean(OfferedCode(c).value);
    }
  }

  /** What recording logs for a defect to be there. */
  ghost predicate Due(ids: seq<string>, calls: seq<Call>, d: Defect) {
    match d
    case NotInBatch(id) => id !in ids && Called(calls, id)
    case Duplicate(id) => id in ids && CalledTwice(calls, id)
    case RefusedCode(id, why) => exists i :: 0 <= i < |calls| && Refuses(calls[i], id, why)
    case _ => false
  }

  /** One more call: what it adds. */
  ghost predicate DueNext(ids: seq<string>, calls: seq<Call>, c: Call, d: Defect) {
    match d
    case NotInBatch(id) => id !in ids && CallId(c) == id
    case Duplicate(id) => id in ids && Called(calls, id) && CallId(c) == id
    case RefusedCode(id, why) => Refuses(c, id, why)
    case _ => false
  }

  lemma DueSnoc(ids: seq<string>, calls: seq<Call>, c: Call, d: Defect)
    ensures Due(ids, calls + [c], d) <==> Due(ids, calls, d) || DueNext(ids, calls, c, d)
  {
    var all := calls + [c];
    assert forall i :: 0 <= i < |calls| ==> all[i] == calls[i];
    assert all[|calls|] == c;
    match d
    case NotInBatch(id) =>
      CalledSnoc(calls, c, id);
    case Duplicate(id) =>
      CalledTwiceSnoc(calls, c, id);
    case RefusedCode(id, why) =>
      if i :| 0 <= i < |calls| && Refuses(calls[i], id, why) {
        assert Refuses(all[i], id, why);
      }
    case _ =>
  }

  lemma CalledSnoc(calls: seq<Call>, c: Call, id: string)
    ensures Called(calls + [c], id) <==> Called(calls, id) || CallId(c) == id
  {
    var all := calls + [c];
    if Called(calls, id) {
      var i :| 0 <= i < |calls| && CallId(calls[i]) == id;
      assert CallId(all[i]) == id;
    }
    assert all[|calls|] == c;
  }

  lemma CalledTwiceSnoc(calls: seq<Call>, c: Call, id: string)
    ensures CalledTwice(calls + [c], id) <==> CalledTwice(calls, id) || (Called(calls, id) && CallId(c) == id)
  {
    var all, n := calls + [c], |calls|;
    assert all[n] == c;
    if CalledTwice(calls, id) {
      var i, j :| 0 <= i < j < n && CallId(calls[i]) == id && CallId(calls[j]) == id;
      assert CallId(all[i]) == id && CallId(all[j]) == id;
    } else if Called(calls, id) && CallId(c) == id {
      var i :| 0 <= i < n && CallId(calls[i]) == id;
      assert CallId(all[i]) == id && CallId(all[n]) == id;
    }
    if CalledTwice(all, id) {
      var i, j :| 0 <= i < j < |all| && CallId(all[i]) == id && CallId(all[j]) == id;
      assert CallId(calls[i]) == id;
    }
  }

  lemma ApplyLogs(s: State, calls: seq<Call>, c: Call, d: Defect)
    requires forall id :: id in s.results <==> id in s.ids && Called(calls, id)
    ensures d in Apply(s, c).defects <==> d in s.defects || DueNext(s.ids, calls, c, d)
  {
    VerdictKeepsId(c);
    CallDefectsMean(c, d);
  }

  /**
   Over every call sequence: recording logs an id outside the batch, a second verdict and a refused code, and
   nothing else.
   */
  lemma {:induction false} RecordingLogsWhatIsDue(verb: Verb, requested: seq<string>, calls: seq<Call>, d: Defect)
    ensures d in FinalState(verb, requested, calls).defects <==> Due(RequestIds(requested), calls, d)
  {
    if calls != [] {
      var n := |calls| - 1;
      var front, last := calls[..n], calls[n];
      RecordingLogsWhatIsDue(verb, requested, front, d);
      PlayKeepsLast(Open(verb, requested), front);
      forall id ensures LastCall(front, id).Some? <==> Called(front, id) {
        LastCallFindsAny(front, id);
      }
      ApplyLogs(FinalState(verb, requested, front), front, last, d);
      DueSnoc(RequestIds(requested), front, last, d);
      assert front + [last] == calls;
    }
  }

  /**
   The reply logs what it replaces: a missing verdict, an unknown outcome, one of another lane, a missing
   external id.
   */
  lemma ReplacementsAreLogged(lane: Lane, s: State, id: string)
    ensures JudgeId(lane, s, id).1 ==
            if id !in s.results then [NoVerdict(id)]
            else
              var r := s.results[id];
              if !Known(r.outcome) then [BadOutcome(r.outcome, id)]
              else if !Accepts(s.verb, r.outcome) then [LaneOutcome(r.outcome, id, s.verb)]
              else if (r.outcome == "created" || r.outcome == "updated") && r.externalId == "" then
                [NoExternalId(r.outcome, id)]
              else []
  {
  }

  lemma NoVerdictAt(lane: Lane, s: State, at: string, id: string)
    ensures NoVerdict(id) in JudgeId(lane, s, at).1 <==> at == id && id !in s.results
  {
  }

  lemma {:induction false} NoVerdictAmong(lane: Lane, s: State, ids: seq<string>, id: string)
    ensures NoVerdict(id) in DefectsFor(lane, s, ids) <==> id in ids && id !in s.results
  {
    if ids != [] {
      var n := |ids| - 1;
      NoVerdictAmong(lane, s, ids[..n], id);
      NoVerdictAt(lane, s, ids[n], id);
      assert ids == ids[..n] + [ids[n]];
    }
  }

  /** The reply itself logs a missing verdict for exactly the ids without a call. */
  lemma MissingVerdictsAreLogged(lane: Lane, verb: Verb, requested: seq<string>, calls: seq<Call>, id: string)
    ensures NoVerdict(id) in AllDefects(lane, FinalState(verb, requested, calls)) <==>
            id in RequestIds(requested) && !Called(calls, id)
  {
    var s := FinalState(verb, requested, calls);
    PlayKeepsLast(Open(verb, requested), calls);
    RecordingLogsWhatIsDue(verb, requested, calls, NoVerdict(id));
    NoVerdictAmong(lane, s, s.ids, id);
    LastCallFindsAny(calls, id);
  }
}
