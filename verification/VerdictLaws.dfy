/** What the verdict rules guarantee, for every sequence of component calls. */
module VerdictLaws {
  import opened Prelude
  import opened Text
  import opened Verdicts

  // -------------------------------------------------- the ids of a batch

  /** Where id first occurs among the requested ids. */
  ghost predicate FirstAt(requested: seq<string>, id: string, i: nat) {
    i < |requested| && requested[i] == id && id !in requested[..i]
  }

  ghost predicate InRequestOrder(requested: seq<string>, ids: seq<string>) {
    forall i, j, p, q :: 0 <= i < j < |ids| && FirstAt(requested, ids[i], p) && FirstAt(requested, ids[j], q) ==> p < q
  }

  /** The batch answers for exactly the distinct non-empty requested ids, in request order. */
  lemma {:induction false} IdsAreTheRequestedOnes(requested: seq<string>)
    ensures Distinct(RequestIds(requested))
    ensures forall id :: id in RequestIds(requested) <==> id in requested && id != ""
    ensures InRequestOrder(requested, RequestIds(requested))
  {
    if requested != [] {
      var n := |requested| - 1;
      var rest, last := requested[..n], requested[n];
      IdsAreTheRequestedOnes(rest);
      assert requested == rest + [last];
      var ids := RequestIds(requested);
      forall i, j, p, q | 0 <= i < j < |ids| && FirstAt(requested, ids[i], p) && FirstAt(requested, ids[j], q)
        ensures p < q {
        assert ids[i] in rest;
        FirstIsEarly(requested, n, ids[i], p);
        if j < |RequestIds(rest)| {
          FirstIsEarly(requested, n, ids[j], q);
          assert FirstAt(rest, ids[i], p) && FirstAt(rest, ids[j], q);
        } else {
          assert q == n;
        }
      }
    }
  }

  lemma FirstIsEarly(requested: seq<string>, n: nat, id: string, p: nat)
    requires n < |requested| && FirstAt(requested, id, p) && id in requested[..n]
    ensures p < n && FirstAt(requested[..n], id, p)
  {
    var k :| 0 <= k < n && requested[..n][k] == id;
    assert forall m :: 0 <= m < p ==> requested[m] != id by {
      assert forall m :: 0 <= m < p ==> requested[..p][m] == requested[m];
    }
    assert requested[..n][..p] == requested[..p];
  }

  // -------------------------------------------------- the last verdict wins

  /** The last call for an id, looking only at the calls. */
  function LastCall(calls: seq<Call>, id: string): Option<Call> {
    if calls == [] then None
    else if CallId(calls[|calls| - 1]) == id then Some(calls[|calls| - 1])
    else LastCall(calls[..|calls| - 1], id)
  }

  lemma VerdictKeepsId(c: Call)
    ensures Verdict(c).id == CallId(c)
  {
  }

  lemma {:induction false} PlayKeepsLast(s: State, calls: seq<Call>)
    requires s.results == map[]
    ensures var t := Play(s, calls);
            && t.verb == s.verb && t.ids == s.ids
            && (forall id :: id in t.results <==> id in s.ids && LastCall(calls, id).Some?)
            && (forall id :: id in t.results ==> t.results[id] == Verdict(LastCall(calls, id).value))
  {
    if calls != [] {
      PlayKeepsLast(s, calls[..|calls| - 1]);
      VerdictKeepsId(calls[|calls| - 1]);
    }
  }

  /** The reply's verdict for an id, from the calls alone. */
  function Expected(lane: Lane, verb: Verb, calls: seq<Call>, id: string): SyncResult {
    match LastCall(calls, id)
    case None => NormalizedFailure(id, NO_VERDICT, NoVerdictFor(lane))
    case Some(c) => Judge(verb, id, Verdict(c)).0
  }

  function FinalState(verb: Verb, requested: seq<string>, calls: seq<Call>): State {
    Play(Open(verb, requested), calls)
  }

  /** One verdict per id, in order: the last one recorded for it, normalised. */
  lemma ReplyIsTheLastVerdicts(lane: Lane, verb: Verb, requested: seq<string>, calls: seq<Call>)
    ensures var reply := Reply(lane, FinalState(verb, requested, calls));
            && |reply| == |RequestIds(requested)|
            && forall i :: 0 <= i < |reply| ==>
                             reply[i].id == RequestIds(requested)[i]
                             && reply[i] == Expected(lane, verb, calls, RequestIds(requested)[i])
  {
    PlayKeepsLast(Open(verb, requested), calls);
    var s := FinalState(verb, requested, calls);
    forall i | 0 <= i < |s.ids|
      ensures Reply(lane, s)[i].id == s.ids[i] && Reply(lane, s)[i] == Expected(lane, verb, calls, s.ids[i])
    {
      ExpectedHasId(lane, verb, calls, s.ids[i]);
    }
  }

  lemma ExpectedHasId(lane: Lane, verb: Verb, calls: seq<Call>, id: string)
    ensures Expected(lane, verb, calls, id).id == id
  {
    if LastCall(calls, id).Some? {
      LastCallHasId(calls, id);
      VerdictKeepsId(LastCall(calls, id).value);
    }
  }

  lemma {:induction false} LastCallHasId(calls: seq<Call>, id: string)
    requires LastCall(calls, id).Some?
    ensures CallId(LastCall(calls, id).value) == id && LastCall(calls, id).value in calls
  {
    if CallId(calls[|calls| - 1]) != id {
      LastCallHasId(calls[..|calls| - 1], id);
    }
  }

  // -------------------------------------------------- what the platform accepts

  /** The platform's acceptance rule for a reply. */
  ghost predicate PlatformAccepts(verb: Verb, requested: seq<string>, reply: seq<SyncResult>) {
    && (forall i, j :: 0 <= i < j < |reply| ==> reply[i].id != reply[j].id)
    && (forall i :: 0 <= i < |reply| ==> reply[i].id in requested && reply[i].id != "")
    && (forall id :: id in requested && id != "" ==> exists i :: 0 <= i < |reply| && reply[i].id == id)
    && (forall i :: 0 <= i < |reply| ==> AcceptableVerdict(verb, reply[i]))
  }

  predicate AcceptableVerdict(verb: Verb, r: SyncResult) {
    Recognized(r.outcome) && verb.Permits(r.outcome)
    && (r.outcome == CREATED || r.outcome == UPDATED ==> r.externalId != "")
  }

  lemma JudgedIsAcceptable(verb: Verb, id: string, r: SyncResult)
    ensures AcceptableVerdict(verb, Judge(verb, id, r).0)
  {
  }

  /** Whatever a component records, the platform accepts the reply. */
  lemma EveryReplyIsAccepted(lane: Lane, verb: Verb, requested: seq<string>, calls: seq<Call>)
    ensures PlatformAccepts(verb, requested, Reply(lane, FinalState(verb, requested, calls)))
  {
    var ids, reply := RequestIds(requested), Reply(lane, FinalState(verb, requested, calls));
    IdsAreTheRequestedOnes(requested);
    ReplyIsTheLastVerdicts(lane, verb, requested, calls);
    forall i | 0 <= i < |reply| ensures AcceptableVerdict(verb, reply[i]) {
      match LastCall(calls, ids[i])
      case None =>
      case Some(c) => JudgedIsAcceptable(verb, ids[i], Verdict(c));
    }
    forall id | id in requested && id != "" ensures exists i :: 0 <= i < |reply| && reply[i].id == id {
      var i :| 0 <= i < |ids| && ids[i] == id;
      assert reply[i].id == id;
    }
  }

  // -------------------------------------------------- pending ids

  lemma {:induction false} MissingAreThoseWithout(ids: seq<string>, results: map<string, SyncResult>)
    ensures forall id :: id in Missing(ids, results) <==> id in ids && id !in results
    ensures Distinct(ids) ==> Distinct(Missing(ids, results))
  {
    if ids != [] {
      var n := |ids| - 1;
      MissingAreThoseWithout(ids[..n], results);
      assert ids == ids[..n] + [ids[n]];
      if Distinct(ids) {
        assert ids[n] !in ids[..n];
      }
    }
  }

  /** Pending ids and recorded ids always partition the batch, by whether a call was made for them. */
  lemma PendingAndRecordedPartition(verb: Verb, requested: seq<string>, calls: seq<Call>)
    ensures var s := FinalState(verb, requested, calls);
            && (forall id :: id in Pending(s) <==> id in s.ids && LastCall(calls, id).None?)
            && (forall id :: id in s.results <==> id in s.ids && LastCall(calls, id).Some?)
            && Distinct(Pending(s))
  {
    IdsAreTheRequestedOnes(requested);
    PlayKeepsLast(Open(verb, requested), calls);
    var s := FinalState(verb, requested, calls);
    MissingAreThoseWithout(s.ids, s.results);
  }

  // -------------------------------------------------- reason codes

  /** A code a component may use: trimmed, short, without whitespace and outside the reserved namespaces. */
  predicate ComponentCode(code: string) {
    !HasSpace(code) && ByteLen(code) <= MAX_CODE_LEN && !HasPrefix(code, PLATFORM_PREFIX)
    && !HasPrefix(code, SDK_PREFIX)
  }

  /** Normalising accepts exactly the component codes, whatever surrounds them, and drops all others. */
  lemma NormalizedCodes(code: string)
    ensures ComponentCode(NormalizeCode(code).0)
    ensures NormalizeCode(code).1.None? <==> ComponentCode(Trim(code))
    ensures NormalizeCode(code).1.None? ==> NormalizeCode(code).0 == Trim(code)
    ensures NormalizeCode(code).1.Some? ==> NormalizeCode(code).0 == ""
  {
  }

  lemma ComponentCodesAreKept(code: string)
    requires ComponentCode(code)
    ensures NormalizeCode(code) == (code, None)
  {
    TrimFixpoint(code);
  }

  /** Printable ASCII holds no space and takes one byte a character. */
  lemma {:induction false} PlainAscii(s: string)
    requires forall i :: 0 <= i < |s| ==> '!' <= s[i] <= '~'
    ensures ByteLen(s) == |s| && !HasSpace(s)
  {
    if s != [] {
      PlainAscii(s[1..]);
    }
  }

  lemma MintedCodesAreShort(code: string)
    requires IsMinted(code)
    ensures ByteLen(code) <= MAX_CODE_LEN && !HasSpace(code) && HasPrefix(code, SDK_PREFIX)
  {
    MintedCodesAreAscii();
    AsciiCodesAreShort(code);
  }

  lemma AsciiCodesAreShort(code: string)
    requires AsciiCode(code)
    ensures ByteLen(code) <= MAX_CODE_LEN && !HasSpace(code) && HasPrefix(code, SDK_PREFIX)
  {
    PlainAscii(code);
  }

  predicate AsciiCode(s: string) {
    |s| <= 64 && SDK_PREFIX <= s && forall i :: 0 <= i < |s| ==> '!' <= s[i] <= '~'
  }

  lemma MintedCodesAreAscii()
    ensures AsciiCode(NO_VERDICT) && AsciiCode(UNRECOGNIZED_OUTCOME) && AsciiCode(MISSING_EXTERNAL_ID)
            && AsciiCode(NO_REASON)
  {
  }

  /** A verdict's code is the component's own, or a minted one on a failure. */
  predicate CodeIsOwned(r: SyncResult) {
    ComponentCode(r.code) || IsMintedReplay(r)
  }

  lemma StoredCodesAreOwned(c: Call)
    ensures CodeIsOwned(Verdict(c))
  {
    match c
    case SkippedReason(_, code, _) => NormalizedCodes(code);
    case FailedReason(_, code, _) => NormalizedCodes(code);
    case Record(r) => NormalizedCodes(r.code);
    case _ =>
  }

  lemma ExpectedCodesAreOwned(lane: Lane, verb: Verb, calls: seq<Call>, id: string)
    ensures CodeIsOwned(Expected(lane, verb, calls, id))
  {
    if LastCall(calls, id).Some? {
      StoredCodesAreOwned(LastCall(calls, id).value);
    }
  }

  /**
   Over any calls: no platform: code, sdk: codes only minted and only on failures, all short and without
   whitespace.
   */
  lemma NamespacesAreProtected(lane: Lane, verb: Verb, requested: seq<string>, calls: seq<Call>, i: nat)
    requires i < |RequestIds(requested)|
    ensures var reply := Reply(lane, FinalState(verb, requested, calls));
            && |reply| == |RequestIds(requested)|
            && !HasPrefix(reply[i].code, PLATFORM_PREFIX)
            && (HasPrefix(reply[i].code, SDK_PREFIX) ==> reply[i].outcome == FAILED && IsMinted(reply[i].code))
            && ByteLen(reply[i].code) <= MAX_CODE_LEN && !HasSpace(reply[i].code)
  {
    ReplyIsTheLastVerdicts(lane, verb, requested, calls);
    var id := RequestIds(requested)[i];
    var r := Expected(lane, verb, calls, id);
    ExpectedCodesAreOwned(lane, verb, calls, id);
    if IsMinted(r.code) {
      MintedCodesAreShort(r.code);
    }
  }

  // -------------------------------------------------- replay

  /** The calls that replay a reply through Record. */
  function Replay(reply: seq<SyncResult>): seq<Call> {
    seq(|reply|, i requires 0 <= i < |reply| => Record(reply[i]))
  }

  /** A verdict that Record stores as it is and Results passes on as it is. */
  predicate Settled(verb: Verb, r: SyncResult) {
    CodeIsOwned(r) && AcceptableVerdict(verb, r)
  }

  lemma SettledIsKept(verb: Verb, r: SyncResult)
    requires Settled(verb, r)
    ensures Verdict(Record(r)) == r && CallDefects(Record(r)) == [] && Judge(verb, r.id, r) == (r, [])
  {
    if !IsMintedReplay(r) {
      ComponentCodesAreKept(r.code);
    }
  }

  lemma RecordSettled(s: State, r: SyncResult)
    requires Settled(s.verb, r) && r.id in s.ids && r.id !in s.results
    ensures Apply(s, Record(r)) == s.(results := s.results[r.id := r])
  {
    SettledIsKept(s.verb, r);
  }

  ghost predicate Replayable(s: State, reply: seq<SyncResult>) {
    && (forall i :: 0 <= i < |reply| ==> reply[i].id in s.ids && Settled(s.verb, reply[i]))
    && (forall i, j :: 0 <= i < j < |reply| ==> reply[i].id != reply[j].id)
  }

  ghost predicate Stored(results: map<string, SyncResult>, reply: seq<SyncResult>) {
    && (forall i :: 0 <= i < |reply| ==> reply[i].id in results && results[reply[i].id] == reply[i])
    && (forall id :: id in results ==> exists i :: 0 <= i < |reply| && reply[i].id == id)
  }

  lemma RecordNext(s: State, before: State, rest: seq<SyncResult>, last: SyncResult)
    requires Replayable(s, rest + [last]) && Stored(before.results, rest)
    requires before.verb == s.verb && before.ids == s.ids && before.defects == []
    ensures var t := Apply(before, Record(last));
            t.verb == s.verb && t.ids == s.ids && t.defects == [] && Stored(t.results, rest + [last])
  {
    var all := rest + [last];
    assert all[|rest|] == last && forall i :: 0 <= i < |rest| ==> all[i] == rest[i];
    NotYetStored(before.results, rest, last);
    RecordSettled(before, last);
    StoredSnoc(before.results, rest, last);
  }

  lemma {:induction false} ReplayStores(s: State, reply: seq<SyncResult>)
    requires s.results == map[] && s.defects == [] && Replayable(s, reply)
    ensures var t := Play(s, Replay(reply));
            t.verb == s.verb && t.ids == s.ids && t.defects == [] && Stored(t.results, reply)
  {
    if reply != [] {
      var n := |reply| - 1;
      var rest, last := reply[..n], reply[n];
      ReplayStores(s, rest);
      PlaySnoc(s, reply);
      assert rest + [last] == reply;
      RecordNext(s, Play(s, Replay(rest)), rest, last);
    }
  }

  lemma PlaySnoc(s: State, reply: seq<SyncResult>)
    requires reply != []
    ensures Play(s, Replay(reply)) == Apply(Play(s, Replay(reply[..|reply| - 1])), Record(reply[|reply| - 1]))
  {
    assert Replay(reply)[..|reply| - 1] == Replay(reply[..|reply| - 1]);
  }

  lemma NotYetStored(results: map<string, SyncResult>, reply: seq<SyncResult>, r: SyncResult)
    requires Stored(results, reply) && forall i :: 0 <= i < |reply| ==> reply[i].id != r.id
    ensures r.id !in results
  {
  }

  lemma StoredSnoc(results: map<string, SyncResult>, reply: seq<SyncResult>, r: SyncResult)
    requires Stored(results, reply) && r.id !in results
    ensures Stored(results[r.id := r], reply + [r])
  {
    var all, results' := reply + [r], results[r.id := r];
    forall id | id in results' ensures exists i :: 0 <= i < |all| && all[i].id == id {
      if id == r.id {
        assert all[|reply|].id == id;
      } else {
        var i :| 0 <= i < |reply| && reply[i].id == id;
        assert all[i].id == id;
      }
    }
  }

  lemma {:induction false} NoDefects(lane: Lane, s: State, ids: seq<string>)
    requires forall i :: 0 <= i < |ids| ==> JudgeId(lane, s, ids[i]).1 == []
    ensures DefectsFor(lane, s, ids) == []
  {
    if ids != [] {
      NoDefects(lane, s, ids[..|ids| - 1]);
    }
  }

  lemma RepliesAreSettled(lane: Lane, verb: Verb, requested: seq<string>, calls: seq<Call>)
    ensures Replayable(Open(verb, requested), Reply(lane, FinalState(verb, requested, calls)))
  {
    var ids, reply := RequestIds(requested), Reply(lane, FinalState(verb, requested, calls));
    ReplyIsTheLastVerdicts(lane, verb, requested, calls);
    EveryReplyIsAccepted(lane, verb, requested, calls);
    forall i | 0 <= i < |reply| ensures reply[i].id in ids && Settled(verb, reply[i]) {
      ExpectedCodesAreOwned(lane, verb, calls, ids[i]);
    }
  }

  /** Replaying a reply into a fresh batch of the same ids and lane reproduces it, with no defects. */
  lemma ReplayIsAFixpoint(lane: Lane, verb: Verb, requested: seq<string>, calls: seq<Call>)
    ensures var reply := Reply(lane, FinalState(verb, requested, calls));
            var again := FinalState(verb, requested, Replay(reply));
            Reply(lane, again) == reply && AllDefects(lane, again) == []
  {
    var reply := Reply(lane, FinalState(verb, requested, calls));
    ReplyIsTheLastVerdicts(lane, verb, requested, calls);
    RepliesAreSettled(lane, verb, requested, calls);
    ReplayStores(Open(verb, requested), reply);
    ReplyOfStored(lane, FinalState(verb, requested, Replay(reply)), reply);
  }

  lemma JudgeStored(lane: Lane, s: State, r: SyncResult)
    requires Settled(s.verb, r) && r.id in s.results && s.results[r.id] == r
    ensures JudgeId(lane, s, r.id) == (r, [])
  {
    SettledIsKept(s.verb, r);
  }

  lemma ReplyOfStored(lane: Lane, s: State, reply: seq<SyncResult>)
    requires Replayable(s, reply) && Stored(s.results, reply) && s.defects == []
    requires |reply| == |s.ids| && forall i :: 0 <= i < |reply| ==> reply[i].id == s.ids[i]
    ensures Reply(lane, s) == reply && AllDefects(lane, s) == []
  {
    forall i | 0 <= i < |s.ids| ensures JudgeId(lane, s, s.ids[i]) == (reply[i], []) {
      JudgeStored(lane, s, reply[i]);
    }
    NoDefects(lane, s, s.ids);
  }

  // -------------------------------------------------- the two lanes agree

  /** Equal verdicts, except that each lane names its own kind of record where no verdict came. */
  predicate SameButForLane(e: SyncResult, r: SyncResult) {
    || e == r
    || (e == NormalizedFailure(e.id, NO_VERDICT, NoVerdictFor(EntityLane))
        && r == NormalizedFailure(e.id, NO_VERDICT, NoVerdictFor(RelationshipLane)))
  }

  /** The entity and relationship batches give the same replies and defects for the same calls. */
  lemma LanesAgree(verb: Verb, requested: seq<string>, calls: seq<Call>)
    ensures var s := FinalState(verb, requested, calls);
            var e, r := Reply(EntityLane, s), Reply(RelationshipLane, s);
            && |e| == |r|
            && (forall i :: 0 <= i < |e| ==> SameButForLane(e[i], r[i]))
            && (forall i :: 0 <= i < |e| && LastCall(calls, s.ids[i]).Some? ==> e[i] == r[i])
            && AllDefects(EntityLane, s) == AllDefects(RelationshipLane, s)
  {
    PlayKeepsLast(Open(verb, requested), calls);
    var s := FinalState(verb, requested, calls);
    SameDefects(s, s.ids);
  }

  lemma {:induction false} SameDefects(s: State, ids: seq<string>)
    ensures DefectsFor(EntityLane, s, ids) == DefectsFor(RelationshipLane, s, ids)
  {
    if ids != [] {
      SameDefects(s, ids[..|ids| - 1]);
    }
  }

  /** A reply grows by what is said of the next id. */
  lemma RepliesSnoc(lane: Lane, s: State, ids: seq<string>, i: nat)
    requires i < |ids|
    ensures RepliesFor(lane, s, ids[..i + 1]) == RepliesFor(lane, s, ids[..i]) + [JudgeId(lane, s, ids[i]).0]
    ensures DefectsFor(lane, s, ids[..i + 1]) == DefectsFor(lane, s, ids[..i]) + JudgeId(lane, s, ids[i]).1
  {
    assert ids[..i + 1][..i] == ids[..i];
  }
}
