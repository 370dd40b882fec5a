/**
 One binding's poll loop: `pollBinding` calls `drain` on every tick, and `drain`
 calls Sync until there is nothing more, an error, or a cursor that does not
 advance. The environment is a script of Sync calls; the context is cancelled
 when the script is used up, so every finite run is the run of some script.
 */
module PollLoop {
  import opened Prelude
  import opened WriterLifecycle

  /**
   One Sync call: the drain it belongs to, the cursor it was given, what the environment did, and the calls
   made on the writer.
   */
  datatype Call = Call(drain: nat, cursor: string, env: Env, ops: seq<Op>)

  /** The cursor after a call. */
  function NextCursor(c: Call): string {
    if c.env.Succeeds() && c.env.result.Some? && c.env.result.value.nextCursor != "" then c.env.result.value.nextCursor
    else c.cursor
  }

  /** The drain goes on after this call. */
  predicate GoesOn(c: Call) {
    && c.env.Succeeds() && c.env.result.Some? && c.env.result.value.hasMore
    && c.env.result.value.nextCursor != "" && c.env.result.value.nextCursor != c.cursor
  }

  /** The calls of a poll loop that started with an empty cursor. */
  ghost predicate IsTrace(trace: seq<Call>) {
    && (trace != [] ==> trace[0].cursor == "")
    && forall i :: 0 < i < |trace| ==>
                     && trace[i].cursor == NextCursor(trace[i - 1])
                     && (trace[i].drain == trace[i - 1].drain <==> GoesOn(trace[i - 1]))
                     && trace[i].drain >= trace[i - 1].drain
  }

  /** Every call used its writer as it must. */
  ghost predicate AllDisciplined(trace: seq<Call>) {
    forall i :: 0 <= i < |trace| ==> Disciplined(trace[i].env, trace[i].ops)
  }

  function CursorAfter(trace: seq<Call>): string {
    if trace == [] then "" else NextCursor(trace[|trace| - 1])
  }

  class Poller {
    const script: seq<Env>
    var cursor: string
    var drains: nat
    var trace: seq<Call>

    constructor (script: seq<Env>)
      ensures this.script == script && Valid() && trace == [] && cursor == ""
    {
      this.script := script;
      cursor, drains, trace := "", 0, [];
    }

    /** The trace is a poll trace of the script's first calls, and the cursor is where it leads. */
    ghost predicate Consistent()
      reads this
    {
      && |trace| <= |script|
      && (forall i :: 0 <= i < |trace| ==> trace[i].env == script[i])
      && IsTrace(trace) && AllDisciplined(trace)
      && cursor == CursorAfter(trace)
      && (forall i :: 0 <= i < |trace| ==> trace[i].drain < drains)
    }

    /** Between drains: the last one ended because it had to, unless the context was cancelled. */
    ghost predicate Valid()
      reads this
    {
      Consistent() && (0 < |trace| < |script| ==> !GoesOn(trace[|trace| - 1]))
    }

    /** One turn of the drain loop: Sync, then keep or advance the cursor, then say whether to go on. */
    method SyncOnce(mine: nat) returns (goOn: bool)
      requires Consistent() && |trace| < |script| && drains == mine + 1
      requires trace != [] ==> (trace[|trace| - 1].drain == mine <==> GoesOn(trace[|trace| - 1]))
      modifies this`cursor, this`trace
      ensures Consistent()
      ensures |trace| == |old(trace)| + 1 && old(trace) <= trace
      ensures var call := trace[|old(trace)|];
              call.drain == mine && call.cursor == old(cursor) && call.env == script[|old(trace)|]
      ensures goOn == GoesOn(trace[|trace| - 1])
    {
      var reply, ops := RunSync(script[|trace|]);
      var call := Call(mine, cursor, script[|trace|], ops);
      ExtendTrace(trace, call);
      trace := trace + [call];
      if reply.SyncError? {
        return false;
      }
      var advanced := reply.result.Some? && reply.result.value.nextCursor != ""
                      && reply.result.value.nextCursor != cursor;
      if reply.result.Some? && reply.result.value.nextCursor != "" {
        cursor := reply.result.value.nextCursor;
      }
      if reply.result.None? || !reply.result.value.hasMore {
        return false;
      }
      return advanced;
    }

    /** `drain`: consume the pages available now. */
    method Drain()
      requires Valid()
      modifies this`cursor, this`drains, this`trace
      ensures Valid()
      ensures old(trace) <= trace
      ensures |old(trace)| < |script| ==> |old(trace)| < |trace|
      ensures forall i :: |old(trace)| <= i < |trace| ==> trace[i].drain == old(drains)
    {
      var mine, goOn := drains, true;
      drains := drains + 1;
      while goOn && |trace| < |script|
        invariant Consistent() && drains == mine + 1 && old(trace) <= trace
        invariant forall i :: |old(trace)| <= i < |trace| ==> trace[i].drain == mine
        invariant |trace| == |old(trace)| ==> goOn
        invariant 0 < |trace| < |script| ==>
                    goOn == (trace[|trace| - 1].drain != mine || GoesOn(trace[|trace| - 1]))
                    && (trace[|trace| - 1].drain != mine ==> !GoesOn(trace[|trace| - 1]))
        decreases |script| - |trace|
      {
        goOn := SyncOnce(mine);
      }
    }

    /** `pollBinding`: drain on every tick until the context is cancelled. */
    method Poll()
      requires Valid()
      modifies this`cursor, this`drains, this`trace
      ensures Valid() && old(trace) <= trace
      ensures |trace| == |script|
    {
      while |trace| < |script|
        invariant Valid() && old(trace) <= trace
        decreases |script| - |trace|
      {
        Drain();
      }
    }
  }

  lemma ExtendTrace(trace: seq<Call>, c: Call)
    requires IsTrace(trace) && AllDisciplined(trace) && c.cursor == CursorAfter(trace) && Disciplined(c.env, c.ops)
    requires trace != [] ==>
               var last := trace[|trace| - 1];
               c.drain >= last.drain && (c.drain == last.drain <==> GoesOn(last))
    ensures IsTrace(trace + [c]) && AllDisciplined(trace + [c]) && CursorAfter(trace + [c]) == NextCursor(c)
  {
    var all := trace + [c];
    forall i | 0 < i < |all|
      ensures all[i].cursor == NextCursor(all[i - 1]) && (all[i].drain == all[i - 1].drain <==> GoesOn(all[i - 1]))
              && all[i].drain >= all[i - 1].drain
    {
      assert all[i - 1] == trace[i - 1];
      assert i < |trace| ==> all[i] == trace[i];
    }
  }

  // -------------------------------------------------- what a whole run guarantees

  /** The batch was committed: a Close was made and it succeeded. */
  predicate Committed(c: Call) {
    Close(true) in c.ops
  }

  /** The writer accepted no record. */
  predicate NothingAccepted(c: Call) {
    forall i :: 0 <= i < |c.ops| && c.ops[i].Write? ==> !c.ops[i].ok
  }

  /** Sync was called on a writer and returned without an error, and its batch was committed or held nothing. */
  predicate Settled(c: Call) {
    c.ops != [] && c.env.handlerOk && (Committed(c) || NothingAccepted(c))
  }

  /** A call is settled exactly when it reports success, and one that is not settled has committed nothing. */
  lemma SettledCallsSucceed(c: Call)
    requires Disciplined(c.env, c.ops)
    ensures Settled(c) <==> c.env.Succeeds()
    ensures !Settled(c) ==> !Committed(c)
  {
    if c.env.factoryOk {
      var ops := c.ops;
      EmittedWrites(c.env, ops);
      if i :| 0 <= i < |ops| && ops[i].Close? {
        assert ops[i] == Close(c.env.closeOk);
      }
    }
  }

  /** The accepted writes of a disciplined call are those of the component. */
  lemma EmittedWrites(env: Env, ops: seq<Op>)
    requires env.factoryOk && Disciplined(env, ops)
    ensures Emitted(env.writes) <==> exists i :: 0 <= i < |ops| && ops[i].Write? && ops[i].ok
  {
    assert forall i :: 0 <= i < |env.writes| ==> ops[i] == Write(env.writes[i].kind, env.writes[i].ok);
    if Emitted(env.writes) {
      var i :| 0 <= i < |env.writes| && env.writes[i].ok;
      assert ops[i].Write? && ops[i].ok;
    }
  }

  /**
   Over a whole poll run the cursor leaves a value only after a batch read at
   that value was committed or was empty, and every call up to that one was
   given the same value.
   */
  lemma {:induction false} CursorLeavesOnlySettledBatches(trace: seq<Call>, i: nat, j: nat)
    requires IsTrace(trace) && AllDisciplined(trace) && i < j < |trace| && trace[i].cursor != trace[j].cursor
    ensures exists k :: i <= k < j && Settled(trace[k]) && NextCursor(trace[k]) != trace[i].cursor
                        && forall m :: i <= m <= k ==> trace[m].cursor == trace[i].cursor
    decreases j - i
  {
    if trace[i + 1].cursor != trace[i].cursor {
      SettledCallsSucceed(trace[i]);
    } else {
      CursorLeavesOnlySettledBatches(trace, i + 1, j);
      var k :| i + 1 <= k < j && Settled(trace[k]) && NextCursor(trace[k]) != trace[i + 1].cursor
               && forall m :: i + 1 <= m <= k ==> trace[m].cursor == trace[i + 1].cursor;
      assert forall m :: i <= m <= k ==> trace[m].cursor == trace[i].cursor;
    }
  }

  /**
   The next call's cursor is the one a settled call answered, if it answered one,
   and otherwise the same; the drain goes on to it exactly when a settled call
   announced more under a new cursor.
   */
  lemma CursorsFollowAnswers(trace: seq<Call>, i: nat)
    requires IsTrace(trace) && AllDisciplined(trace) && i + 1 < |trace|
    ensures var call, next := trace[i], trace[i + 1];
            var answered := Settled(call) && call.env.result.Some? && call.env.result.value.nextCursor != "";
            && next.cursor == (if answered then call.env.result.value.nextCursor else call.cursor)
            && (next.drain == call.drain <==>
                answered && call.env.result.value.hasMore && call.env.result.value.nextCursor != call.cursor)
  {
    SettledCallsSucceed(trace[i]);
    assert trace[i + 1].cursor == NextCursor(trace[i]);
  }

  /** Calls within one drain are contiguous. */
  lemma {:induction false} DrainsAreOrdered(trace: seq<Call>, i: nat, j: nat)
    requires IsTrace(trace) && i <= j < |trace|
    ensures trace[i].drain <= trace[j].drain
  {
    if i < j {
      DrainsAreOrdered(trace, i, j - 1);
    }
  }

  /**
   A call that is not settled committed nothing and is retried with the same cursor, on a later tick; within
   one drain the cursor always moves.
   */
  lemma FailuresRetryTheSameCursor(trace: seq<Call>, i: nat)
    requires IsTrace(trace) && AllDisciplined(trace) && i + 1 < |trace|
    ensures !Settled(trace[i]) ==>
              !Committed(trace[i]) && trace[i + 1].cursor == trace[i].cursor && trace[i + 1].drain > trace[i].drain
    ensures trace[i + 1].drain == trace[i].drain ==> trace[i + 1].cursor != trace[i].cursor
  {
    SettledCallsSucceed(trace[i]);
    assert trace[i + 1].cursor == NextCursor(trace[i]);
  }

  /** Every batch a drain passes was settled, so only the last call of a drain can have failed. */
  lemma {:induction false} OnlyTheLastCallOfADrainFails(trace: seq<Call>, i: nat, j: nat)
    requires IsTrace(trace) && AllDisciplined(trace) && i < j < |trace| && trace[i].drain == trace[j].drain
    ensures forall k :: i <= k < j ==> Settled(trace[k]) && trace[k].cursor != trace[k + 1].cursor
  {
    forall k | i <= k < j ensures Settled(trace[k]) && trace[k].cursor != trace[k + 1].cursor {
      DrainsAreOrdered(trace, i, k);
      DrainsAreOrdered(trace, k, k + 1);
      DrainsAreOrdered(trace, k + 1, j);
      FailuresRetryTheSameCursor(trace, k);
      assert trace[k + 1].drain == trace[k].drain;
      assert GoesOn(trace[k]);
    }
  }

  // -------------------------------------------------- when a drain ends

  /** A source whose behaviour depends on the cursor alone. */
  type Source = string -> Env

  /** The call a source gets at a cursor, with the writer's calls that follow from it. */
  function CallAt(src: Source, cursor: string): Call {
    Call(0, cursor, src(cursor), OpsOf(src(cursor)))
  }

  function OpsOf(env: Env): seq<Op> {
    if !env.factoryOk then []
    else Writes(env.writes) + (if env.handlerOk && Emitted(env.writes) then [Close(env.closeOk)] else []) + [Discard]
  }

  /** A drain goes on after its call at this cursor. */
  predicate GoesFrom(src: Source, cursor: string) {
    GoesOn(CallAt(src, cursor))
  }

  function Next(src: Source, cursor: string): string {
    NextCursor(CallAt(src, cursor))
  }

  /** Where n calls lead. */
  function At(src: Source, cursor: string, n: nat): string {
    if n == 0 then cursor else Next(src, At(src, cursor, n - 1))
  }

  /** The drain goes on after each of its first n calls. */
  ghost predicate GoesFor(src: Source, cursor: string, n: nat) {
    forall k: nat :: k < n ==> GoesFrom(src, At(src, cursor, k))
  }

  /** Some call ends the drain. */
  ghost predicate Ends(src: Source, cursor: string) {
    exists n: nat :: !GoesFrom(src, At(src, cursor, n))
  }

  /** The drain comes back to a cursor it has read at. */
  ghost predicate Repeats(src: Source, cursor: string) {
    exists i: nat, j: nat :: i < j && GoesFor(src, cursor, j) && At(src, cursor, i) == At(src, cursor, j)
  }

  /** A set of cursors the source does not lead out of. */
  ghost predicate Closed(src: Source, cursors: set<string>) {
    forall c :: c in cursors && GoesFrom(src, c) ==> Next(src, c) in cursors
  }

  /**
   Over finitely many cursors a drain ends if and only if it comes back to no cursor, and then within as many
   calls as there are cursors.
   */
  lemma DrainEndsUnlessItRepeats(src: Source, cursors: set<string>, cursor: string)
    requires cursor in cursors && Closed(src, cursors)
    ensures Ends(src, cursor) <==> !Repeats(src, cursor)
    ensures Ends(src, cursor) ==> exists n: nat :: n < |cursors| && !GoesFrom(src, At(src, cursor, n))
  {
    if Repeats(src, cursor) {
      var i: nat, j: nat :| i < j && GoesFor(src, cursor, j) && At(src, cursor, i) == At(src, cursor, j);
      forall n: nat ensures GoesFrom(src, At(src, cursor, n)) {
        var m := Revisited(src, cursor, i, j, n);
      }
    } else {
      EndsInTime(src, cursors, cursor);
    }
  }

  /** Once a cursor has come back, every later cursor is one of those before. */
  lemma {:induction false} Revisited(src: Source, cursor: string, i: nat, j: nat, n: nat) returns (m: nat)
    requires i < j && At(src, cursor, i) == At(src, cursor, j)
    ensures m < j && At(src, cursor, n) == At(src, cursor, m)
  {
    if n < j {
      m := n;
    } else {
      var before := Revisited(src, cursor, i, j, n - 1);
      SameNext(src, cursor, n - 1, before);
      m := if before + 1 < j then before + 1 else i;
    }
  }

  lemma SameNext(src: Source, cursor: string, n: nat, m: nat)
    requires At(src, cursor, n) == At(src, cursor, m)
    ensures At(src, cursor, n + 1) == At(src, cursor, m + 1)
  {
  }

  lemma EndsInTime(src: Source, cursors: set<string>, cursor: string)
    requires cursor in cursors && Closed(src, cursors) && !Repeats(src, cursor)
    ensures exists n: nat :: n < |cursors| && !GoesFrom(src, At(src, cursor, n))
  {
    if GoesFor(src, cursor, |cursors|) {
      LongWalksRepeat(src, cursors, cursor);
    }
  }

  lemma LongWalksRepeat(src: Source, cursors: set<string>, cursor: string)
    requires cursor in cursors && Closed(src, cursors) && GoesFor(src, cursor, |cursors|)
    ensures Repeats(src, cursor)
  {
    var walk := seq(|cursors| + 1, (n: nat) => At(src, cursor, n));
    forall n: nat | n < |walk| ensures walk[n] in cursors {
      StaysInside(src, cursors, cursor, n);
    }
    var i, j := Pigeonhole(walk, cursors);
    assert GoesFor(src, cursor, j);
    assert At(src, cursor, i) == At(src, cursor, j);
  }

  lemma {:induction false} StaysInside(src: Source, cursors: set<string>, cursor: string, n: nat)
    requires cursor in cursors && Closed(src, cursors) && GoesFor(src, cursor, n)
    ensures At(src, cursor, n) in cursors
  {
    if n > 0 {
      StaysInside(src, cursors, cursor, n - 1);
    }
  }

  /** A list longer than the set it draws from holds some element twice. */
  lemma {:induction false} Pigeonhole(xs: seq<string>, s: set<string>) returns (i: nat, j: nat)
    requires |xs| > |s| && forall k :: 0 <= k < |xs| ==> xs[k] in s
    ensures i < j < |xs| && xs[i] == xs[j]
  {
    var n := |xs| - 1;
    if k :| 0 <= k < n && xs[k] == xs[n] {
      i, j := k, n;
    } else {
      i, j := Pigeonhole(xs[..n], s - {xs[n]});
    }
  }

  /**
   `drain` against a source over finitely many cursors, to its end: it terminates
   exactly where `DrainEndsUnlessItRepeats` says, within as many calls as there
   are cursors, at the first call that does not go on.
   */
  method DrainSource(src: Source, start: string, ghost cursors: set<string>) returns (cursor: string, calls: nat)
    requires start in cursors && Closed(src, cursors) && !Repeats(src, start)
    ensures 1 <= calls <= |cursors|
    ensures GoesFor(src, start, calls - 1) && !GoesFrom(src, At(src, start, calls - 1))
    ensures cursor == At(src, start, calls)
  {
    cursor, calls := start, 0;
    var goOn := true;
    while goOn
      invariant cursor == At(src, start, calls)
      invariant goOn ==> GoesFor(src, start, calls)
      invariant !goOn ==> calls >= 1 && GoesFor(src, start, calls - 1) && !GoesFrom(src, At(src, start, calls - 1))
      invariant calls <= |cursors|
      decreases |cursors| - calls, goOn
    {
      if calls == |cursors| {
        EndsInTime(src, cursors, start);
        assert false;
      }
      var reply, _ := RunSync(src(cursor));
      calls := calls + 1;
      if reply.SyncError? {
        goOn := false;
      } else {
        var advanced := reply.result.Some? && reply.result.value.nextCursor != ""
                        && reply.result.value.nextCursor != cursor;
        goOn := reply.result.Some? && reply.result.value.hasMore && advanced;
        if reply.result.Some? && reply.result.value.nextCursor != "" {
          cursor := reply.result.value.nextCursor;
        }
      }
    }
  }

  /** A source whose drain does not end keeps one drain of the poll loop going for any number of calls. */
  lemma {:induction false} EndlessDrains(src: Source, n: nat) returns (trace: seq<Call>)
    requires !Ends(src, "")
    ensures |trace| == n && IsTrace(trace) && AllDisciplined(trace) && CursorAfter(trace) == At(src, "", n)
    ensures forall i :: 0 <= i < n ==> trace[i].drain == 0 && trace[i].env == src(trace[i].cursor) && GoesOn(trace[i])
  {
    trace := [];
    if n > 0 {
      var front := EndlessDrains(src, n - 1);
      var call := CallAt(src, At(src, "", n - 1));
      assert GoesFrom(src, At(src, "", n - 1));
      PathIsDisciplined(call.env, call.ops);
      ExtendTrace(front, call);
      trace := front + [call];
    }
  }

  /** A source that answers `a` and `b` in turn. */
  function Alternating(a: string, b: string): Source {
    cursor => Env(true, [], true, Some(SyncResult(if cursor == a then b else a, true)), true)
  }

  /** Two cursors in turn are enough: the source repeats, so its drain never ends. */
  lemma CyclicCursorNeverStops(a: string, b: string)
    requires a != b && a != "" && b != ""
    ensures Repeats(Alternating(a, b), "") && !Ends(Alternating(a, b), "")
  {
    var src := Alternating(a, b);
    AlternatingSteps(a, b);
    assert At(src, "", 1) == a;
    assert At(src, "", 2) == b;
    assert At(src, "", 3) == a;
    assert GoesFor(src, "", 3);
    DrainEndsUnlessItRepeats(src, {"", a, b}, "");
  }

  lemma AlternatingSteps(a: string, b: string)
    requires a != b && a != "" && b != ""
    ensures forall c :: GoesFrom(Alternating(a, b), c) && Next(Alternating(a, b), c) == if c == a then b else a
  {
  }
}
