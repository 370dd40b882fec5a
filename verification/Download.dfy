/**
 The capped, retried download: `Get` with its retry loop, one attempt, and the
 spool file an attempt writes. The network, the file writes and the context are
 inputs; removing a file always succeeds.
 */
module Download {
  import opened Prelude

  type Byte = b: int | 0 <= b < 256

  datatype Cause = Cancelled | NetError(timeout: bool) | OverCap | WriteFailed | OtherCause

  /** An error as the retry loop sees it: whether it is marked permanent, and its cause. */
  datatype Error = Error(permanent: bool, cause: Cause)

  /** `isRetryable` on a non-nil error. */
  predicate IsRetryable(e: Error) {
    e.cause != Cancelled && !e.permanent && (e.cause.NetError? ==> e.cause.timeout)
  }

  /** `StatusError`. */
  function StatusError(status: int): Error {
    Error(400 <= status < 500, OtherCause)
  }

  /** `readLimit`: one byte past the cap, without overflow. */
  function ReadLimit(maxBytes: int): (limit: int)
    requires 0 < maxBytes <= MAX_INT64
    ensures 0 < limit <= MAX_INT64
    ensures maxBytes < MAX_INT64 ==> limit == maxBytes + 1
    ensures maxBytes == MAX_INT64 ==> limit == maxBytes
  {
    if maxBytes == MAX_INT64 then MAX_INT64 else maxBytes + 1
  }

  /** Reading up to the limit tells exactly whether a body is over the cap, for every positive cap. */
  lemma LimitDetectsOverrun(maxBytes: int, length: nat)
    requires 0 < maxBytes <= MAX_INT64 && length <= MAX_INT64
    ensures var n := if length < ReadLimit(maxBytes) then length else ReadLimit(maxBytes);
            n > maxBytes <==> length > maxBytes
  {
  }

  // -------------------------------------------------- files

  class FileSystem {
    var files: map<nat, seq<Byte>>
    var next: nat

    ghost predicate Valid()
      reads this
    {
      forall f :: f in files ==> f < next
    }

    constructor ()
      ensures Valid() && files == map[]
    {
      files, next := map[], 0;
    }

    method CreateTemp() returns (f: nat)
      requires Valid()
      modifies this
      ensures Valid() && f !in old(files) && files == old(files)[f := []] && next == f + 1
    {
      f := next;
      files := files[f := []];
      next := next + 1;
    }

    method Append(f: nat, bytes: seq<Byte>)
      requires Valid() && f in files
      modifies this`files
      ensures Valid() && files == old(files)[f := old(files)[f] + bytes]
    {
      files := files[f := files[f] + bytes];
    }

    method Remove(f: nat)
      requires Valid()
      modifies this`files
      ensures Valid() && files == old(files) - {f}
    {
      files := files - {f};
    }
  }

  /** A finished download; Close deletes its file, once. */
  class Result {
    const file: nat
    const size: nat
    const hashed: seq<Byte>
    var closed: bool

    constructor (file: nat, size: nat, hashed: seq<Byte>)
      ensures this.file == file && this.size == size && this.hashed == hashed && !closed
    {
      this.file, this.size, this.hashed := file, size, hashed;
      closed := false;
    }

    method Close(fs: FileSystem)
      requires fs.Valid()
      modifies this, fs`files
      ensures fs.Valid() && closed
      ensures fs.files == if old(closed) then old(fs.files) else old(fs.files) - {file}
    {
      if closed {
        return;
      }
      closed := true;
      fs.Remove(file);
    }
  }

  // -------------------------------------------------- one spool

  /** One read of the body, and how many of its bytes the file takes before a write fails. */
  datatype Chunk = Chunk(bytes: seq<Byte>, written: nat) {
    predicate WriteOk() { written >= |bytes| }
  }

  datatype End = Eof | ReadError(e: Error)

  /** A body read in chunks; its end may come with the last of them or in a read of its own. */
  datatype Body = Body(chunks: seq<Chunk>, end: End, endsWithData: bool)

  /** Reading up to the limit meets the end of the body: before the limit, or with the very bytes that reach it. */
  predicate MeetsEnd(body: Body, limit: int) {
    var length := |Bytes(body.chunks)|;
    length < limit || (length == limit && EndsInLastRead(body))
  }

  predicate EndsInLastRead(body: Body) {
    body.endsWithData && body.chunks != [] && body.chunks[|body.chunks| - 1].bytes != []
  }

  function Bytes(chunks: seq<Chunk>): seq<Byte> {
    if chunks == [] then [] else Bytes(chunks[..|chunks| - 1]) + chunks[|chunks| - 1].bytes
  }

  /** The source delivered the whole body and the disk took it. */
  predicate Transferred(body: Body) {
    body.end == Eof && forall i :: 0 <= i < |body.chunks| ==> body.chunks[i].WriteOk()
  }

  datatype Outcome = Success | Failure(e: Error)

  datatype Spooled = Spooled(size: nat, hashed: seq<Byte>) | SpoolFailed(e: Error)

  const OVER_CAP := Error(true, OverCap)
  const WRITE_FAILED := Error(true, WriteFailed)

  /** Nothing the copy writes before it reaches the limit fails to be written. */
  predicate WritesFit(chunks: seq<Chunk>, limit: int) {
    forall i :: 0 <= i < |chunks| ==> ChunkFits(chunks, i, limit)
  }

  /** The disk takes as much of chunk i as the limit leaves. */
  predicate ChunkFits(chunks: seq<Chunk>, i: nat, limit: int)
    requires i < |chunks|
  {
    var room := limit - |Bytes(chunks[..i])|;
    room <= 0 || chunks[i].written >= (if |chunks[i].bytes| <= room then |chunks[i].bytes| else room)
  }

  /** How the copy fails, if it does: a failed write first, then a read error that is met. */
  function CopyError(body: Body, limit: int): Option<Error> {
    if !WritesFit(body.chunks, limit) then Some(WRITE_FAILED)
    else if body.end.ReadError? && MeetsEnd(body, limit) then Some(body.end.e)
    else None
  }

  /** How spooling a body ends: with the error of the copy, or by the cap. */
  function SpoolOutcome(body: Body, maxBytes: int): Outcome
    requires 0 < maxBytes <= MAX_INT64
  {
    var stop := CopyError(body, ReadLimit(maxBytes));
    if stop.Some? then Failure(stop.value)
    else if |Bytes(body.chunks)| > maxBytes then Failure(OVER_CAP)
    else Success
  }

  /**
   A fully transferred body is accepted if and only if it fits the cap, for every positive cap; it is over the
   cap otherwise.
   */
  lemma TransferredBodiesMeetTheCap(body: Body, maxBytes: int)
    requires 0 < maxBytes <= MAX_INT64 && Transferred(body)
    ensures SpoolOutcome(body, maxBytes) == if |Bytes(body.chunks)| <= maxBytes then Success else Failure(OVER_CAP)
  {
  }

  /**
   An accepted body fits the cap and was read to its end; only at the maximal length can a later read hide an
   error.
   */
  lemma AcceptedBodiesAreComplete(body: Body, maxBytes: int)
    requires 0 < maxBytes <= MAX_INT64 && SpoolOutcome(body, maxBytes) == Success
    ensures |Bytes(body.chunks)| <= maxBytes
    ensures |Bytes(body.chunks)| < MAX_INT64 || EndsInLastRead(body) ==> body.end == Eof
  {
  }

  lemma {:induction false} BytesPrefix(chunks: seq<Chunk>, i: nat)
    requires i <= |chunks|
    ensures Bytes(chunks[..i]) <= Bytes(chunks)
  {
    if i < |chunks| {
      BytesPrefix(chunks[..|chunks| - 1], i);
      assert chunks[..|chunks| - 1][..i] == chunks[..i];
    } else {
      assert chunks[..i] == chunks;
    }
  }

  /** One turn of the copy: all of the chunk, or its part up to the limit. */
  lemma CopyOne(chunks: seq<Chunk>, i: nat, limit: int, take: nat)
    requires i < |chunks| && |Bytes(chunks[..i])| < limit
    requires take == if |chunks[i].bytes| <= limit - |Bytes(chunks[..i])| then |chunks[i].bytes|
                     else limit - |Bytes(chunks[..i])|
    ensures var copied := Bytes(chunks[..i]) + chunks[i].bytes[..take];
            && (|copied| < limit ==> copied == Bytes(chunks[..i + 1]))
            && (|copied| == limit ==>
                  |Bytes(chunks[..i + 1])| >= limit && |Bytes(chunks)| >= limit && copied == Bytes(chunks)[..limit])
    ensures i + 1 == |chunks| ==>
              (if take == |chunks[i].bytes| then |Bytes(chunks[..i])| + take == |Bytes(chunks)|
               else limit < |Bytes(chunks)|)
    ensures ChunkFits(chunks, i, limit) <==> chunks[i].written >= take
  {
    if i + 1 == |chunks| {
      assert chunks[..i + 1] == chunks;
    }
    assert chunks[..i + 1][..i] == chunks[..i];
    assert Bytes(chunks[..i + 1]) == Bytes(chunks[..i]) + chunks[i].bytes;
    BytesPrefix(chunks, i + 1);
  }

  /** Past the limit nothing is written any more. */
  lemma FullIsFit(chunks: seq<Chunk>, i: nat, limit: int)
    requires i <= |chunks| && |Bytes(chunks[..i])| >= limit
    requires forall j :: 0 <= j < i ==> ChunkFits(chunks, j, limit)
    ensures WritesFit(chunks, limit)
  {
    forall j | i <= j < |chunks| ensures ChunkFits(chunks, j, limit) {
      BytesPrefix(chunks[..j], i);
      assert chunks[..j][..i] == chunks[..i];
    }
  }

  /** A limit reached without the end of the body hides how it ends. */
  lemma EndIsNotMet(body: Body, i: nat, limit: int)
    requires i <= |body.chunks| && |Bytes(body.chunks[..i])| >= limit
    requires i == |body.chunks| && EndsInLastRead(body) ==> limit < |Bytes(body.chunks)|
    ensures !MeetsEnd(body, limit)
  {
    var chunks := body.chunks;
    BytesPrefix(chunks, i);
    if i < |chunks| {
      BytesPrefix(chunks[..|chunks| - 1], i);
      assert chunks[..|chunks| - 1][..i] == chunks[..i];
    }
  }

  /** The copy took the last chunk whole, and with it the end of the body. */
  lemma EndIsMet(body: Body, limit: int)
    requires EndsInLastRead(body) && |Bytes(body.chunks)| <= limit
    requires forall j :: 0 <= j < |body.chunks| ==> ChunkFits(body.chunks, j, limit)
    ensures MeetsEnd(body, limit) && WritesFit(body.chunks, limit)
  {
  }

  lemma LimitReached(body: Body, i: nat, limit: int)
    requires i <= |body.chunks| && |Bytes(body.chunks[..i])| >= limit
    requires forall j :: 0 <= j < i ==> ChunkFits(body.chunks, j, limit)
    requires body.end.ReadError? && i == |body.chunks| && EndsInLastRead(body) ==> limit < |Bytes(body.chunks)|
    ensures CopyError(body, limit).None?
  {
    FullIsFit(body.chunks, i, limit);
    if body.end.ReadError? {
      EndIsNotMet(body, i, limit);
    }
  }

  /** The part of the body up to the limit. */
  function Limited(body: Body, limit: nat): seq<Byte> {
    var bytes := Bytes(body.chunks);
    if |bytes| <= limit then bytes else bytes[..limit]
  }

  /** The copy through the limit, hashing in the same pass. */
  method CopyBody(fs: FileSystem, f: nat, body: Body, limit: nat) returns (hashed: seq<Byte>, stop: Option<Error>)
    requires fs.Valid() && f in fs.files && fs.files[f] == [] && 0 < limit
    modifies fs`files
    ensures fs.Valid() && f in fs.files && fs.files - {f} == old(fs.files) - {f}
    ensures stop == CopyError(body, limit)
    ensures stop.None? ==> fs.files[f] == hashed == Limited(body, limit)
  {
    hashed := [];
    var i := 0;
    while i < |body.chunks| && |hashed| < limit
      invariant 0 <= i <= |body.chunks| && |hashed| <= limit
      invariant fs.Valid() && f in fs.files && fs.files - {f} == old(fs.files) - {f} && fs.files[f] == hashed
      invariant |hashed| < limit ==> hashed == Bytes(body.chunks[..i])
      invariant forall j :: 0 <= j < i ==> ChunkFits(body.chunks, j, limit)
      invariant body.end.ReadError? && i == |body.chunks| && EndsInLastRead(body) ==> limit < |Bytes(body.chunks)|
      invariant |hashed| == limit ==> |Bytes(body.chunks[..i])| >= limit && |Bytes(body.chunks)| >= limit
      invariant |hashed| == limit ==> hashed == Bytes(body.chunks)[..limit]
      decreases |body.chunks| - i
    {
      var chunk, room := body.chunks[i], limit - |hashed|;
      var take := if |chunk.bytes| <= room then |chunk.bytes| else room;
      CopyOne(body.chunks, i, limit, take);
      if chunk.written < take {
        fs.Append(f, chunk.bytes[..chunk.written]);
        return hashed, Some(WRITE_FAILED);
      }
      fs.Append(f, chunk.bytes[..take]);
      hashed := hashed + chunk.bytes[..take];
      i := i + 1;
      if body.end.ReadError? && body.endsWithData && i == |body.chunks| && 0 < take == |chunk.bytes| {
        EndIsMet(body, limit);
        return hashed, Some(body.end.e);
      }
    }
    if |hashed| < limit {
      assert body.chunks[..|body.chunks|] == body.chunks;
      return hashed, if body.end.ReadError? then Some(body.end.e) else None;
    }
    LimitReached(body, i, limit);
    return hashed, None;
  }

  /**
   `writeSpool`: it ends as the body, the disk and the cap determine, and an
   accepted body is in the file, in the hash and in the size exactly.
   */
  method WriteSpool(fs: FileSystem, f: nat, body: Body, maxBytes: int) returns (r: Spooled)
    requires fs.Valid() && f in fs.files && fs.files[f] == []
    requires 0 < maxBytes <= MAX_INT64 && |Bytes(body.chunks)| <= MAX_INT64
    modifies fs`files
    ensures fs.Valid() && f in fs.files && fs.files - {f} == old(fs.files) - {f}
    ensures r.Spooled? ==> fs.files[f] == r.hashed == Bytes(body.chunks) && r.size == |r.hashed| <= maxBytes
    ensures SpoolOutcome(body, maxBytes) == if r.Spooled? then Success else Failure(r.e)
  {
    var hashed, stop := CopyBody(fs, f, body, ReadLimit(maxBytes));
    if stop.Some? {
      return SpoolFailed(stop.value);
    }
    if |hashed| > maxBytes {
      return SpoolFailed(OVER_CAP);
    }
    return Spooled(|hashed|, hashed);
  }

  // -------------------------------------------------- one attempt

  /** Why a request got no response: the client wraps every such failure as a network error. */
  datatype Lost = ContextEnded | TimedOut | OtherFailure

  function LostError(lost: Lost): Error {
    Error(false, match lost
                 case ContextEnded => Cancelled
                 case TimedOut => NetError(true)
                 case OtherFailure => NetError(false))
  }

  /** What the network does on one attempt. */
  datatype Exchange =
    | BadRequest
    | NoResponse(lost: Lost)
    | Response(status: int, declared: int, tempOk: bool, body: Body)

  /** An exchange that can end in a finished download under the cap. */
  predicate Acceptable(x: Exchange, maxBytes: int) {
    x.Response? && 200 <= x.status < 300 && x.declared <= maxBytes && x.tempOk
  }

  const REFUSED := Error(true, OtherCause)

  /** How an attempt ends, as the exchange and the cap determine. */
  function ExchangeOutcome(x: Exchange, maxBytes: int): Outcome
    requires 0 < maxBytes <= MAX_INT64
  {
    match x
    case BadRequest => Failure(REFUSED)
    case NoResponse(lost) => Failure(LostError(lost))
    case Response(status, declared, tempOk, body) =>
      if !(200 <= status < 300) then Failure(StatusError(status))
      else if declared > maxBytes then Failure(OVER_CAP)
      else if !tempOk then Failure(REFUSED)
      else SpoolOutcome(body, maxBytes)
  }

  /** An attempt without a response is retried if and only if it timed out. */
  lemma OnlyTimeoutsAreRetried(lost: Lost, maxBytes: int)
    requires 0 < maxBytes <= MAX_INT64
    ensures ExchangeOutcome(NoResponse(lost), maxBytes).Failure?
    ensures IsRetryable(ExchangeOutcome(NoResponse(lost), maxBytes).e) <==> lost == TimedOut
  {
  }

  /**
   Any status outside 200 to 299 fails the attempt, which is retried if and only if the status is not in 400 to
   499.
   */
  lemma StatusesDecideRetries(status: int, declared: int, tempOk: bool, body: Body, maxBytes: int)
    requires 0 < maxBytes <= MAX_INT64 && !(200 <= status < 300)
    ensures var outcome := ExchangeOutcome(Response(status, declared, tempOk, body), maxBytes);
            outcome.Failure? && (IsRetryable(outcome.e) <==> status < 400 || 500 <= status)
  {
  }

  /**
   A body the source delivered too much of, by its own account or in fact, or that the disk did not take, fails
   for good.
   */
  lemma RefusalsAreFinal(x: Exchange, maxBytes: int)
    requires 0 < maxBytes <= MAX_INT64
    requires || x.BadRequest?
             || (x.Response? && 200 <= x.status < 300
                 && (x.declared > maxBytes || !x.tempOk || !WritesFit(x.body.chunks, ReadLimit(maxBytes))
                     || (x.body.end == Eof && |Bytes(x.body.chunks)| > maxBytes)))
    ensures ExchangeOutcome(x, maxBytes).Failure? && !IsRetryable(ExchangeOutcome(x, maxBytes).e)
  {
  }

  /**
   Which failures are worth another attempt: none that is final or ends the context, a network failure only if
   it timed out.
   */
  lemma RetryableFailuresAre(e: Error)
    ensures e.permanent || e.cause == Cancelled ==> !IsRetryable(e)
    ensures !e.permanent && e.cause.NetError? ==> (IsRetryable(e) <==> e.cause.timeout)
    ensures !e.permanent && e.cause != Cancelled && !e.cause.NetError? ==> IsRetryable(e)
  {
  }

  /**
   An attempt succeeds if and only if it gets a 2xx whose declared and actual size fit, and the disk takes the
   body.
   */
  lemma AttemptsSucceedExactly(x: Exchange, maxBytes: int)
    requires 0 < maxBytes <= MAX_INT64
    ensures ExchangeOutcome(x, maxBytes) == Success <==>
            && x.Response? && 200 <= x.status <= 299 && x.declared <= maxBytes && x.tempOk
            && WritesFit(x.body.chunks, ReadLimit(maxBytes)) && |Bytes(x.body.chunks)| <= maxBytes
            && (x.body.end == Eof || !MeetsEnd(x.body, ReadLimit(maxBytes)))
  {
  }

  ghost predicate IntSized(x: Exchange) {
    x.Response? ==> |Bytes(x.body.chunks)| <= MAX_INT64
  }

  /** `attempt` with `spool`: a failure leaves the files as they were, a success adds exactly the body. */
  method TryOnce(fs: FileSystem, x: Exchange, maxBytes: int) returns (res: Result?, outcome: Outcome)
    requires fs.Valid() && 0 < maxBytes <= MAX_INT64 && IntSized(x)
    modifies fs
    ensures fs.Valid()
    ensures outcome.Success? <==> res != null
    ensures outcome.Failure? ==> fs.files == old(fs.files)
    ensures res != null ==> fresh(res) && Delivered(old(fs.files), fs.files, res, x, maxBytes)
    ensures outcome == ExchangeOutcome(x, maxBytes)
  {
    res := null;
    match x {
      case BadRequest =>
        return null, Failure(REFUSED);
      case NoResponse(lost) =>
        return null, Failure(LostError(lost));
      case Response(status, declared, tempOk, body) =>
        if status < 200 || status >= 300 {
          return null, Failure(StatusError(status));
        }
        if declared > maxBytes {
          return null, Failure(OVER_CAP);
        }
        if !tempOk {
          return null, Failure(REFUSED);
        }
        var f := fs.CreateTemp();
        var r := WriteSpool(fs, f, body, maxBytes);
        if r.SpoolFailed? {
          fs.Remove(f);
          assert old(fs.files) - {f} == old(fs.files);
          return null, Failure(r.e);
        }
        res := new Result(f, r.size, r.hashed);
        assert old(fs.files) - {f} == old(fs.files);
        outcome := Success;
    }
  }

  /** Exactly one file was added, holding the body; the result describes it. */
  ghost predicate Delivered(before: map<nat, seq<Byte>>, after: map<nat, seq<Byte>>, res: Result, x: Exchange,
                            maxBytes: int)
    reads res
  {
    && Acceptable(x, maxBytes) && !res.closed
    && res.file !in before && res.file in after && after - {res.file} == before
    && after[res.file] == Bytes(x.body.chunks) == res.hashed
    && res.size == |res.hashed| <= maxBytes
    && (res.size < MAX_INT64 ==> x.body.end == Eof)
  }

  // -------------------------------------------------- the retry loop

  /** A URL after parsing; scheme in lower case, host as the allowlist spells it. */
  datatype Url = Url(parses: bool, scheme: string, host: string)

  datatype Config = Config(allowInsecure: bool, allowlist: set<string>, maxAttempts: int, maxBytes: int) {
    function Attempts(): (n: nat)
      ensures n >= 1
    {
      if maxAttempts <= 0 then 1 else maxAttempts
    }
  }

  /** The URL checks made before any request. */
  predicate UrlAllowed(cfg: Config, u: Url) {
    u.parses && (u.scheme == "https" || (u.scheme == "http" && cfg.allowInsecure)) && u.host != ""
    && (cfg.allowlist == {} || u.host in cfg.allowlist)
  }

  /** A URL that may be fetched: https, or http where that is allowed, to a host that is listed if any is. */
  predicate MayFetch(cfg: Config, u: Url) {
    && u.parses && u.host != ""
    && (u.scheme == "https" || (u.scheme == "http" && cfg.allowInsecure))
    && (cfg.allowlist != {} ==> u.host in cfg.allowlist)
  }

  /** How often a download may be attempted: as configured, and at least once. */
  function Budget(cfg: Config): nat {
    if cfg.maxAttempts < 1 then 1 else cfg.maxAttempts
  }

  /** The environment of a run: the exchange of each attempt, and where the context ends. */
  datatype Env = Env(exchange: nat -> Exchange, doneBefore: nat -> bool, doneWaiting: nat -> bool)

  /**
   `Get`: nothing is left on disk on an error, and on success exactly one file
   holding the complete body of the last exchange. log is the outcome of each
   attempt, which the exchange it made determines.
   */
  method Get(fs: FileSystem, cfg: Config, u: Url, env: Env) returns (res: Result?, log: seq<Outcome>)
    requires fs.Valid() && 0 < cfg.maxBytes <= MAX_INT64 && forall k :: IntSized(env.exchange(k))
    modifies fs
    ensures fs.Valid()
    ensures |log| <= Budget(cfg)
    ensures log != [] ==> MayFetch(cfg, u)
    ensures MayFetch(cfg, u) && !env.doneBefore(0) ==> log != []
    ensures !UrlAllowed(cfg, u) ==> log == [] && res == null
    ensures forall i :: 0 <= i < |log| ==>
                          log[i] == ExchangeOutcome(env.exchange(i), cfg.maxBytes) && !env.doneBefore(i)
    ensures forall i :: 0 <= i < |log| - 1 ==> log[i].Failure? && IsRetryable(log[i].e) && !env.doneWaiting(i)
    ensures res != null <==> log != [] && log[|log| - 1] == Success
    ensures res == null ==> fs.files == old(fs.files)
    ensures res != null ==> fresh(res) && Delivered(old(fs.files), fs.files, res, env.exchange(|log| - 1), cfg.maxBytes)
    ensures res == null && UrlAllowed(cfg, u) ==> GaveUp(cfg, env, log)
  {
    log, res := [], null;
    if !UrlAllowed(cfg, u) {
      return;
    }
    while |log| < cfg.Attempts()
      invariant fs.Valid() && |log| <= cfg.Attempts() && res == null
      invariant forall i :: 0 <= i < |log| ==>
                              log[i] == ExchangeOutcome(env.exchange(i), cfg.maxBytes) && !env.doneBefore(i)
      invariant forall i :: 0 <= i < |log| ==> log[i].Failure? && IsRetryable(log[i].e)
      invariant forall i :: 0 <= i < |log| && i < cfg.Attempts() - 1 ==> !env.doneWaiting(i)
      invariant fs.files == old(fs.files)
      invariant |log| == cfg.Attempts() ==> GaveUp(cfg, env, log)
      decreases cfg.Attempts() - |log|
    {
      if env.doneBefore(|log|) {
        return;
      }
      var outcome;
      res, outcome := TryOnce(fs, env.exchange(|log|), cfg.maxBytes);
      log := log + [outcome];
      if outcome.Success? {
        return;
      }
      if outcome.e.permanent || !IsRetryable(outcome.e) {
        return;
      }
      if |log| < cfg.Attempts() && env.doneWaiting(|log| - 1) {
        return;
      }
    }
  }

  /** Why a run without a result stopped: the budget, the last failure, or the context. */
  ghost predicate GaveUp(cfg: Config, env: Env, log: seq<Outcome>) {
    || |log| == Budget(cfg)
    || (log != [] && log[|log| - 1].Failure? && !IsRetryable(log[|log| - 1].e))
    || env.doneBefore(|log|)
    || (log != [] && env.doneWaiting(|log| - 1))
  }

  /** The first attempt that does not end in a retryable failure, if the budget reaches it. */
  ghost predicate Decides(cfg: Config, env: Env, k: nat)
    requires 0 < cfg.maxBytes <= MAX_INT64
  {
    && k < Budget(cfg)
    && (forall i :: 0 <= i < k ==>
                      var o := ExchangeOutcome(env.exchange(i), cfg.maxBytes);
                      o.Failure? && IsRetryable(o.e))
    && var o := ExchangeOutcome(env.exchange(k), cfg.maxBytes);
    o.Failure? ==> !IsRetryable(o.e)
  }

  /**
   A run whose context never ends stops at the deciding attempt, and fails after the whole budget when there is
   none.
   */
  method GetUndisturbed(fs: FileSystem, cfg: Config, u: Url, env: Env) returns (res: Result?, attempts: nat)
    requires fs.Valid() && 0 < cfg.maxBytes <= MAX_INT64 && forall k :: IntSized(env.exchange(k))
    requires UrlAllowed(cfg, u) && forall k :: !env.doneBefore(k) && !env.doneWaiting(k)
    modifies fs
    ensures fs.Valid()
    ensures forall k: nat :: Decides(cfg, env, k) ==>
                               && attempts == k + 1
                               && (res != null <==> ExchangeOutcome(env.exchange(k), cfg.maxBytes) == Success)
    ensures (forall k: nat :: !Decides(cfg, env, k)) ==> attempts == Budget(cfg) && res == null
    ensures res == null ==> fs.files == old(fs.files)
  {
    var log;
    res, log := Get(fs, cfg, u, env);
    attempts := |log|;
    assert log != [];
    if log[|log| - 1].Success? || !IsRetryable(log[|log| - 1].e) {
      assert Decides(cfg, env, |log| - 1);
    }
  }
}
