/**
 The life of a transfer writer on every server path: the connector's poll and
 webhook paths and the loader's single-pass and streaming paths. The writer
 records the calls made on it; what the component does with it is an input.
 */
module WriterLifecycle {
  import opened Prelude
  import opened Text

  datatype Kind = Vertex | Edge | EntityType | RelationshipType | Hierarchy

  /** One Write call of the component, and whether the writer accepted it. */
  datatype Attempt = Attempt(kind: Kind, ok: bool)

  datatype Op = Write(kind: Kind, ok: bool) | Close(ok: bool) | Discard

  class Writer {
    var ops: seq<Op>

    constructor ()
      ensures ops == []
    {
      ops := [];
    }

    method Put(op: Op)
      modifies this
      ensures ops == old(ops) + [op]
    {
      ops := ops + [op];
    }

    /** A loader's writes, made on the writer itself. */
    method PutAll(writes: seq<Attempt>)
      modifies this
      ensures ops == old(ops) + Writes(writes)
    {
      for i := 0 to |writes|
        invariant ops == old(ops) + Writes(writes[..i])
      {
        Put(Write(writes[i].kind, writes[i].ok));
        assert writes[..i + 1] == writes[..i] + [writes[i]];
        EmittedSnoc(writes[..i], writes[i]);
      }
      assert writes[..|writes|] == writes;
    }
  }

  /** Counts the records a component emits; every Write method is overridden. */
  class CountingWriter {
    const inner: Writer
    var n: nat

    constructor (w: Writer)
      ensures inner == w && n == 0
    {
      inner := w;
      n := 0;
    }

    method WriteVertex(ok: bool)
      modifies this, inner
      ensures inner.ops == old(inner.ops) + [Write(Vertex, ok)]
      ensures n == old(n) + if ok then 1 else 0
    {
      inner.Put(Write(Vertex, ok));
      if ok { n := n + 1; }
    }

    method WriteEdge(ok: bool)
      modifies this, inner
      ensures inner.ops == old(inner.ops) + [Write(Edge, ok)]
      ensures n == old(n) + if ok then 1 else 0
    {
      inner.Put(Write(Edge, ok));
      if ok { n := n + 1; }
    }

    method WriteEntityType(ok: bool)
      modifies this, inner
      ensures inner.ops == old(inner.ops) + [Write(EntityType, ok)]
      ensures n == old(n) + if ok then 1 else 0
    {
      inner.Put(Write(EntityType, ok));
      if ok { n := n + 1; }
    }

    method WriteRelationshipType(ok: bool)
      modifies this, inner
      ensures inner.ops == old(inner.ops) + [Write(RelationshipType, ok)]
      ensures n == old(n) + if ok then 1 else 0
    {
      inner.Put(Write(RelationshipType, ok));
      if ok { n := n + 1; }
    }

    method WriteHierarchy(ok: bool)
      modifies this, inner
      ensures inner.ops == old(inner.ops) + [Write(Hierarchy, ok)]
      ensures n == old(n) + if ok then 1 else 0
    {
      inner.Put(Write(Hierarchy, ok));
      if ok { n := n + 1; }
    }

    /** The component's writes, in order, through the method of each record's kind. */
    method Emit(writes: seq<Attempt>)
      requires n == 0
      modifies this, inner
      ensures inner.ops == old(inner.ops) + Writes(writes)
      ensures n == 0 <==> !Emitted(writes)
    {
      var i := 0;
      while i < |writes|
        invariant 0 <= i <= |writes|
        invariant inner.ops == old(inner.ops) + Writes(writes[..i])
        invariant n == 0 <==> !Emitted(writes[..i])
      {
        var a := writes[i];
        ghost var before := inner.ops;
        match a.kind {
          case Vertex => WriteVertex(a.ok);
          case Edge => WriteEdge(a.ok);
          case EntityType => WriteEntityType(a.ok);
          case RelationshipType => WriteRelationshipType(a.ok);
          case Hierarchy => WriteHierarchy(a.ok);
        }
        EmittedSnoc(writes[..i], a);
        assert writes[..i + 1] == writes[..i] + [a];
        i := i + 1;
      }
      assert writes[..i] == writes;
    }
  }

  function Writes(writes: seq<Attempt>): (ops: seq<Op>)
    ensures |ops| == |writes|
  {
    seq(|writes|, i requires 0 <= i < |writes| => Write(writes[i].kind, writes[i].ok))
  }

  /** Some record was accepted, through whichever of the five methods. */
  predicate Emitted(writes: seq<Attempt>) {
    exists i :: 0 <= i < |writes| && writes[i].ok
  }

  lemma EmittedSnoc(writes: seq<Attempt>, a: Attempt)
    ensures Emitted(writes + [a]) <==> Emitted(writes) || a.ok
    ensures Writes(writes + [a]) == Writes(writes) + [Write(a.kind, a.ok)]
  {
    var all := writes + [a];
    if Emitted(writes) {
      var i :| 0 <= i < |writes| && writes[i].ok;
      assert all[i].ok;
    }
    assert all[|writes|] == a;
  }

  // -------------------------------------------------- connector paths

  datatype SyncResult = SyncResult(nextCursor: string, hasMore: bool)

  /** What the writer factory, the component and the commit do on one call. */
  datatype Env = Env(factoryOk: bool, writes: seq<Attempt>, handlerOk: bool, result: Option<SyncResult>,
                     closeOk: bool) {
    /** The call reported success: nothing failed up to and including a due commit. */
    predicate Succeeds() {
      factoryOk && handlerOk && (Emitted(writes) ==> closeOk)
    }

    /** The batch the component emitted was committed. */
    predicate Commits() {
      factoryOk && handlerOk && Emitted(writes) && closeOk
    }
  }

  datatype SyncReply = SyncOk(result: Option<SyncResult>) | SyncError

  /** `runSync`: one Sync, committed only if it succeeded and emitted something. */
  method RunSync(env: Env) returns (reply: SyncReply, ops: seq<Op>)
    ensures reply == if env.Succeeds() then SyncOk(env.result) else SyncError
    ensures Disciplined(env, ops)
  {
    if !env.factoryOk {
      return SyncError, [];
    }
    var w := new Writer();
    var cw := new CountingWriter(w);
    cw.Emit(env.writes);
    if !env.handlerOk {
      reply := SyncError;
    } else if cw.n == 0 {
      reply := SyncOk(env.result);
    } else {
      w.Put(Close(env.closeOk));
      reply := if env.closeOk then SyncOk(env.result) else SyncError;
    }
    w.Put(Discard);
    ops := w.ops;
    PathIsDisciplined(env, ops);
  }

  /** `processWebhookSync`: the outcome is the status code. */
  method ProcessWebhookSync(env: Env) returns (status: nat, ops: seq<Op>)
    ensures status == if env.Succeeds() then 200 else 500
    ensures Disciplined(env, ops)
  {
    if !env.factoryOk {
      return 500, [];
    }
    var w := new Writer();
    var cw := new CountingWriter(w);
    cw.Emit(env.writes);
    if !env.handlerOk {
      status := 500;
    } else if cw.n == 0 {
      status := 200;
    } else {
      w.Put(Close(env.closeOk));
      status := if env.closeOk then 200 else 500;
    }
    w.Put(Discard);
    ops := w.ops;
    PathIsDisciplined(env, ops);
  }

  /** `processWebhookAsync`: the outcome is only logged; committed reports the success line. */
  method ProcessWebhookAsync(env: Env) returns (committed: bool, ops: seq<Op>)
    ensures committed == env.Commits()
    ensures Disciplined(env, ops)
  {
    committed := false;
    if !env.factoryOk {
      return false, [];
    }
    var w := new Writer();
    var cw := new CountingWriter(w);
    cw.Emit(env.writes);
    if env.handlerOk && cw.n != 0 {
      w.Put(Close(env.closeOk));
      committed := env.closeOk;
    }
    w.Put(Discard);
    ops := w.ops;
    PathIsDisciplined(env, ops);
  }

  /**
   The discipline of a connector path, without reference to how it runs: no
   writer, no calls; otherwise the component's writes come first, the last call
   is the only Discard, there is at most one Close, it directly precedes the
   Discard, and it is there exactly when the handler succeeded and at least one
   write was accepted.
   */
  ghost predicate Disciplined(env: Env, ops: seq<Op>) {
    if !env.factoryOk then ops == []
    else
      && Writes(env.writes) <= ops
      && ClosesOnceDiscardsLast(ops, |env.writes|)
      && ((exists i :: 0 <= i < |ops| && ops[i].Close?) <==>
          env.handlerOk && exists i :: 0 <= i < |ops| && ops[i].Write? && ops[i].ok)
      && (forall i :: 0 <= i < |ops| && ops[i].Close? ==> ops[i].ok == env.closeOk)
  }

  /** After the first n calls, which are writes: at most one Close, then the only Discard. */
  ghost predicate ClosesOnceDiscardsLast(ops: seq<Op>, n: nat) {
    && |ops| > n && ops[|ops| - 1] == Discard
    && (forall i :: 0 <= i < n ==> ops[i].Write?)
    && (forall i :: n <= i < |ops| - 1 ==> ops[i].Close? && i == |ops| - 2)
  }

  lemma PathIsDisciplined(env: Env, ops: seq<Op>)
    requires env.factoryOk
    requires ops == Writes(env.writes) + (if env.handlerOk && Emitted(env.writes) then [Close(env.closeOk)] else [])
                    + [Discard]
    ensures Disciplined(env, ops)
  {
    var n := |env.writes|;
    if env.handlerOk && Emitted(env.writes) {
      assert ops[n] == Close(env.closeOk);
      var i :| 0 <= i < n && env.writes[i].ok;
      assert ops[i] == Write(env.writes[i].kind, true);
    } else if env.handlerOk {
      forall i | 0 <= i < |ops| && ops[i].Write? ensures !ops[i].ok {
        assert ops[i] == Write(env.writes[i].kind, env.writes[i].ok);
      }
    }
  }

  /** A call commits exactly when the writer was closed without an error. */
  lemma CommitsAreCloses(env: Env, ops: seq<Op>)
    requires Disciplined(env, ops)
    ensures env.Commits() <==> Close(true) in ops
  {
    if env.factoryOk {
      assert forall i :: 0 <= i < |env.writes| ==> ops[i] == Write(env.writes[i].kind, env.writes[i].ok);
      if Emitted(env.writes) {
        var i :| 0 <= i < |env.writes| && env.writes[i].ok;
        assert ops[i].Write? && ops[i].ok;
      }
      if env.Commits() {
        var i :| 0 <= i < |ops| && ops[i].Close?;
        assert ops[i] == Close(true);
      }
    }
  }

  // -------------------------------------------------- loader paths

  datatype LoadStatus = Unset | Running | Completed | FailedLoad | OtherStatus(terminal: bool) {
    predicate IsTerminal() { Completed? || FailedLoad? || (OtherStatus? && terminal) }
  }

  /** A LoadResponse, as far as closing the writer changes it. */
  datatype Response = Response(status: LoadStatus, error: string, jobId: string)

  /** What Close returns: an error, or a receipt (which may be nil) with its job id. */
  datatype CloseResult = CloseError(message: string) | Receipt(jobId: Option<string>)

  datatype Reply = ErrorReply(httpStatus: nat, code: string) | LoadReply(httpStatus: nat, response: Response)

  /** `closeWriterAndAttachReceipt` on a non-nil writer and response. */
  function AttachReceipt(closed: CloseResult, resp: Response): Response {
    match closed
    case CloseError(message) =>
      resp.(status := FailedLoad,
      error := if resp.error == "" then "transfer close: " + message
      else resp.error + "; transfer close: " + message)
    case Receipt(None) => resp
    case Receipt(Some(id)) => resp.(jobId := id, status := if resp.status == Unset then Running else resp.status)
  }

  function HttpStatus(resp: Response): nat {
    if resp.status.IsTerminal() then 200 else 202
  }

  function ReplyTo(resp: Response): Reply {
    LoadReply(HttpStatus(resp), resp)
  }

  /**
   A failed Close is always reported, as a terminal failure that keeps what the
   handler said; a receipt replaces no status the handler set and no error.
   */
  lemma CloseIsReported(closed: CloseResult, resp: Response)
    ensures closed.CloseError? ==>
              var r := AttachReceipt(closed, resp);
              && r.status == FailedLoad && HttpStatus(r) == 200 && r.jobId == resp.jobId
              && HasPrefix(r.error, resp.error) && HasSuffix(r.error, "transfer close: " + closed.message)
    ensures closed.Receipt? ==>
              var r := AttachReceipt(closed, resp);
              && r.error == resp.error && (resp.status != Unset ==> r.status == resp.status)
              && (closed.jobId.Some? ==>
                    r.jobId == closed.jobId.value && (resp.status == Unset ==> r.status == Running))
              && (closed.jobId.None? ==> r == resp)
  {
    if closed.CloseError? && resp.error != "" {
      var tail := "transfer close: " + closed.message;
      assert resp.error + "; transfer close: " + closed.message == resp.error + "; " + tail;
    }
  }

  /** `runSinglePassLoad` with the deferred Discard: Load's writes, its error or response, and Close. */
  method RunSinglePass(writes: seq<Attempt>, loadOk: bool, resp: Option<Response>, closed: CloseResult)
    returns (reply: Reply, ops: seq<Op>)
    ensures !loadOk ==> reply == ErrorReply(500, "load_failed")
    ensures loadOk && resp.None? ==> reply == ErrorReply(500, "nil_response")
    ensures loadOk && resp.Some? ==> reply == ReplyTo(AttachReceipt(closed, resp.value))
    ensures Writes(writes) <= ops && ClosesOnceDiscardsLast(ops, |writes|)
    ensures Close(closed.Receipt?) in ops <==> reply.LoadReply?
  {
    var w := new Writer();
    w.PutAll(writes);
    if !loadOk {
      reply := ErrorReply(500, "load_failed");
    } else if resp.None? {
      reply := ErrorReply(500, "nil_response");
    } else {
      w.Put(Close(closed.Receipt?));
      reply := ReplyTo(AttachReceipt(closed, resp.value));
    }
    w.Put(Discard);
    ops := w.ops;
    assert loadOk && resp.Some? ==> ops[|writes|] == Close(closed.Receipt?);
  }

  /** A load that is over is answered 200, one that goes on 202. */
  lemma StatusesSayIfItIsOver(resp: Response)
    ensures HttpStatus(resp) == match resp.status
                                case Completed => 200
                                case FailedLoad => 200
                                case Running => 202
                                case Unset => 202
                                case OtherStatus(terminal) => if terminal then 200 else 202
  {
  }

  /** The error of a failed Close, alone or after what the handler said. */
  lemma CloseErrorsRead(message: string, resp: Response)
    ensures AttachReceipt(CloseError(message), resp).error ==
            if resp.error == "" then "transfer close: " + message else resp.error + "; transfer close: " + message
  {
  }

  /** One planned pass: what it writes and whether it succeeds. */
  datatype PassRun = PassRun(writes: seq<Attempt>, ok: bool)

  /** Everything passes up to n write. */
  function PassWrites(passes: seq<PassRun>): seq<Attempt> {
    if passes == [] then [] else PassWrites(passes[..|passes| - 1]) + passes[|passes| - 1].writes
  }

  /** `runStreamingLoad`: the passes in plan order, stopping at the first that fails; Close only after all. */
  method RunStreaming(plan: Option<seq<PassRun>>, closed: CloseResult) returns (reply: Reply, ops: seq<Op>, ran: nat)
    ensures plan.None? ==> ran == 0 && reply == ErrorReply(500, "plan_failed") && ops == [Discard]
    ensures plan == Some([]) ==> ran == 0 && reply == ErrorReply(500, "empty_plan") && ops == [Discard]
    ensures plan.Some? ==> ran <= |plan.value|
    ensures plan.Some? ==> forall i :: 0 <= i < ran - 1 ==> plan.value[i].ok
    ensures plan.Some? && ran < |plan.value| ==> ran > 0 && !plan.value[ran - 1].ok
    ensures plan.Some? ==>
              Writes(PassWrites(plan.value[..ran])) <= ops
              && ClosesOnceDiscardsLast(ops, |PassWrites(plan.value[..ran])|)
    ensures Close(closed.Receipt?) in ops <==> plan.Some? && plan.value != [] && forall i :: 0 <= i < |plan.value| ==>
                                                                                               plan.value[i].ok
    ensures Close(closed.Receipt?) in ops ==>
              ran == |plan.value| && reply == ReplyTo(AttachReceipt(closed, Response(Running, "", "")))
    ensures plan.Some? && plan.value != [] && Close(closed.Receipt?) !in ops ==> reply == ErrorReply(500, "pass_failed")
  {
    ran := 0;
    if plan.None? {
      return ErrorReply(500, "plan_failed"), [Discard], 0;
    }
    var passes := plan.value;
    if passes == [] {
      return ErrorReply(500, "empty_plan"), [Discard], 0;
    }
    var w := new Writer();
    var failed := false;
    while ran < |passes| && !failed
      invariant 0 <= ran <= |passes|
      invariant w.ops == Writes(PassWrites(passes[..ran]))
      invariant failed ==> ran > 0 && !passes[ran - 1].ok
      invariant forall i :: 0 <= i < (if failed then ran - 1 else ran) ==> passes[i].ok
      decreases |passes| - ran, if failed then 0 else 1
    {
      w.PutAll(passes[ran].writes);
      WritesAppend(PassWrites(passes[..ran]), passes[ran].writes);
      assert passes[..ran + 1][..ran] == passes[..ran];
      failed := !passes[ran].ok;
      ran := ran + 1;
    }
    if failed {
      reply := ErrorReply(500, "pass_failed");
    } else {
      w.Put(Close(closed.Receipt?));
      reply := ReplyTo(AttachReceipt(closed, Response(Running, "", "")));
    }
    w.Put(Discard);
    ops := w.ops;
    assert !failed ==> ops[|PassWrites(passes[..ran])|] == Close(closed.Receipt?);
  }

  lemma WritesAppend(a: seq<Attempt>, b: seq<Attempt>)
    ensures Writes(a + b) == Writes(a) + Writes(b)
  {
  }
}
