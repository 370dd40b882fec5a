/**
 Safety of every run of the server protocol, progress of the final drain, and
 the exits on which an accepted delivery can be left behind.
 */
module ServerSafety {
  import opened Prelude
  import opened ServerProtocol

  // -------------------------------------------------- steps of the main goroutine

  /** The steps of `ListenAndServe` up to the point where it serves. */
  predicate IsStartStep(step: Step) {
    || step.SetGate? || step.StartWorker? || step.SpawnListener? || step.CallConnect? || step.ConnectReturns?
    || step.OpenGate? || step.StartLoops?
  }

  lemma StartShutdown(c: Config, s: State, step: Step)
    requires ShutdownInv(c, s) && IsStartStep(step) && MainEnabled(s, step)
    ensures ShutdownInv(c, DoMain(c, s, step))
  {
  }

  lemma StopShutdown(c: Config, s: State, step: Step)
    requires ShutdownInv(c, s) && IsMainStep(step) && !IsStartStep(step) && MainEnabled(s, step)
    ensures ShutdownInv(c, DoMain(c, s, step))
  {
  }

  lemma MainShutdown(c: Config, s: State, step: Step)
    requires ShutdownInv(c, s) && IsMainStep(step) && MainEnabled(s, step)
    ensures ShutdownInv(c, DoMain(c, s, step))
  {
    if IsStartStep(step) {
      StartShutdown(c, s, step);
    } else {
      StopShutdown(c, s, step);
    }
  }

  lemma MainRequests(c: Config, s: State, step: Step)
    requires RequestInv(s.req, s.chan.accepted) && IsMainStep(step) && MainEnabled(s, step)
    ensures RequestInv(DoMain(c, s, step).req, DoMain(c, s, step).chan.accepted)
  {
    MainLog(c, s, step);
    if step.Arrive? {
      ArriveRequests(s.req, s.chan.accepted, step.request, step.delivery);
    }
  }

  lemma ArriveRequests(q: Requests, accepted: seq<Job>, r: RequestId, d: Delivery)
    requires RequestInv(q, accepted) && r !in q.arrived
    ensures RequestInv(q.(handlers := q.handlers[r := Handler(d, AtRoute)], arrived := q.arrived[r := d]), accepted)
  {
    var q' := q.(handlers := q.handlers[r := Handler(d, AtRoute)], arrived := q.arrived[r := d]);
    assert forall x :: Taken202(q', x) <==> Taken202(q, x);
    forall i | 0 <= i < |accepted| ensures AcceptedAs(q', accepted[i]) {
      assert AcceptedAs(q, accepted[i]);
    }
  }

  /** What the main goroutine adds to the log, and what it leaves alone. */
  lemma MainLog(c: Config, s: State, step: Step)
    requires IsMainStep(step) && MainEnabled(s, step)
    ensures DoMain(c, s, step).chan.accepted == s.chan.accepted
    ensures step.Arrive? || DoMain(c, s, step).req == s.req
    ensures DoMain(c, s, step).log == match step
                                      case CallConnect => s.log + [ConnectStart]
                                      case ConnectReturns(ok) => s.log + [ConnectEnd(ok)]
                                      case _ => s.log
  {
  }

  lemma PhaseSnoc(log: seq<Event>, e: Event)
    ensures ConnectPhase(log + [e]) == NextPhase(ConnectPhase(log), e)
  {
    assert (log + [e])[..|log|] == log;
  }

  lemma StartConnect(c: Config, s: State, step: Step, phase: Phase)
    requires ConnectInv(s.life.main, s.retry, phase) && IsStartStep(step) && MainEnabled(s, step)
    ensures var t := DoMain(c, s, step);
            ConnectInv(t.life.main, t.retry, match step
                                             case CallConnect => NextPhase(phase, ConnectStart)
                                             case ConnectReturns(ok) => NextPhase(phase, ConnectEnd(ok))
                                             case _ => phase)
  {
  }

  /** From serving on, the main goroutine touches little and does not go back. */
  lemma StopFrame(c: Config, s: State, step: Step)
    requires IsMainStep(step) && !IsStartStep(step) && MainEnabled(s, step)
    ensures var t := DoMain(c, s, step);
            && t.log == s.log && t.polls == s.polls && t.retry == s.retry && t.chan.accepted == s.chan.accepted
            && t.life.connectPending == s.life.connectPending && (t.life.accepting ==> s.life.accepting)
            && (t.life.main == s.life.main || (AfterLoops(s.life.main) && AfterLoops(t.life.main)))
            && (!step.Arrive? ==> t.req == s.req)
            && (step.Arrive? ==> t.req.handlers == s.req.handlers[step.request := Handler(step.delivery, AtRoute)])
  {
    StopGoesOn(c, s, step);
  }

  lemma StopGoesOn(c: Config, s: State, step: Step)
    requires IsMainStep(step) && !IsStartStep(step) && MainEnabled(s, step)
    ensures var m, m' := s.life.main, DoMain(c, s, step).life.main;
            m' == m || (AfterLoops(m) && AfterLoops(m'))
  {
  }

  lemma StopConnect(c: Config, s: State, step: Step, phase: Phase)
    requires ConnectInv(s.life.main, s.retry, phase) && IsMainStep(step) && !IsStartStep(step) && MainEnabled(s, step)
    ensures var t := DoMain(c, s, step);
            ConnectInv(t.life.main, t.retry, phase)
  {
    StopFrame(c, s, step);
  }

  lemma MainConnect(c: Config, s: State, step: Step)
    requires ConnectInv(s.life.main, s.retry, ConnectPhase(s.log)) && IsMainStep(step) && MainEnabled(s, step)
    ensures var t := DoMain(c, s, step);
            ConnectInv(t.life.main, t.retry, ConnectPhase(t.log))
  {
    MainLog(c, s, step);
    if IsStartStep(step) {
      StartConnect(c, s, step, ConnectPhase(s.log));
      PhaseSnoc(s.log, ConnectStart);
      PhaseSnoc(s.log, ConnectEnd(true));
      PhaseSnoc(s.log, ConnectEnd(false));
    } else {
      StopConnect(c, s, step, ConnectPhase(s.log));
    }
  }

  lemma MainQueue(c: Config, s: State, step: Step)
    requires QueueInv(c, s.chan) && ShutdownInv(c, s) && IsMainStep(step) && MainEnabled(s, step)
    ensures QueueInv(c, DoMain(c, s, step).chan)
  {
  }

  // -------------------------------------------------- handler steps

  lemma HandlerFrame(c: Config, s: State, step: Step)
    requires IsHandlerStep(step) && HandlerEnabled(c, s, step)
    ensures var t := DoHandler(c, s, step);
            && t.life == s.life && t.polls == s.polls && t.retry == s.retry
            && t.chan.worker == s.chan.worker && t.chan.finished == s.chan.finished && t.chan.closed == s.chan.closed
            && t.req.arrived == s.req.arrived && t.req.handlers.Keys <= s.req.handlers.Keys
            && (t.log == s.log || (step.BeginInline? && t.log == s.log + [HandleStart(step.request)]))
  {
  }

  lemma HandlerQueue(c: Config, s: State, step: Step)
    requires QueueInv(c, s.chan) && ShutdownInv(c, s) && IsHandlerStep(step) && HandlerEnabled(c, s, step)
    ensures QueueInv(c, DoHandler(c, s, step).chan)
  {
  }

  lemma HandlerShutdown(c: Config, s: State, step: Step)
    requires ShutdownInv(c, s) && IsHandlerStep(step) && HandlerEnabled(c, s, step)
    ensures ShutdownInv(c, DoHandler(c, s, step))
  {
    HandlerFrame(c, s, step);
  }

  /** A refusal, or an inline answer: the request was not queued. */
  lemma AnswerRequests(q: Requests, accepted: seq<Job>, r: RequestId, status: nat)
    requires RequestInv(q, accepted) && r in q.handlers && q.handlers[r].pc != AtAck && status != 202
    ensures RequestInv(Answer(q, r, status), accepted)
  {
    SameQueued(q, Answer(q, r, status), accepted);
  }

  lemma AdvanceRequests(q: Requests, accepted: seq<Job>, r: RequestId, pc: HandlerPc)
    requires RequestInv(q, accepted) && r in q.handlers && q.handlers[r].pc != AtAck && pc != AtAck
    ensures RequestInv(Advance(q, r, pc), accepted)
  {
    SameQueued(q, Advance(q, r, pc), accepted);
  }

  /** The 202 of a request whose job is queued. */
  lemma AckRequests(q: Requests, accepted: seq<Job>, r: RequestId)
    requires RequestInv(q, accepted) && HandlerAt(q, r, AtAck)
    ensures RequestInv(Answer(q, r, 202), accepted)
  {
    SameQueued(q, Answer(q, r, 202), accepted);
  }

  /** A change that queues nothing and takes nothing back. */
  lemma SameQueued(q: Requests, q': Requests, accepted: seq<Job>)
    requires RequestInv(q, accepted)
    requires q'.arrived == q.arrived && q'.handlers.Keys !! q'.answers.Keys
             && q'.handlers.Keys + q'.answers.Keys == q.arrived.Keys
    requires forall r :: r in q'.handlers ==> q'.handlers[r].delivery == q.arrived[r]
    requires forall r :: Taken202(q', r) <==> Taken202(q, r)
    ensures RequestInv(q', accepted)
  {
    forall i | 0 <= i < |accepted| ensures AcceptedAs(q', accepted[i]) {
      assert AcceptedAs(q, accepted[i]);
    }
  }

  lemma QueueRequests(q: Requests, accepted: seq<Job>, r: RequestId)
    requires RequestInv(q, accepted) && r in q.handlers && q.handlers[r].pc != AtAck
    ensures RequestInv(Advance(q, r, AtAck), accepted + [Job(r, q.handlers[r].delivery)])
  {
    var q', accepted' := Advance(q, r, AtAck), accepted + [Job(r, q.handlers[r].delivery)];
    assert !Taken202(q, r);
    assert forall x :: x != r ==> (Taken202(q', x) <==> Taken202(q, x));
    assert accepted'[|accepted|].request == r;
    forall i | 0 <= i < |accepted'| ensures AcceptedAs(q', accepted'[i]) {
      if i < |accepted| {
        assert AcceptedAs(q, accepted[i]);
      }
    }
    forall x | Taken202(q', x) ensures exists i :: 0 <= i < |accepted'| && accepted'[i].request == x {
      if x != r {
        var i :| 0 <= i < |accepted| && accepted[i].request == x;
        assert accepted'[i].request == x;
      }
    }
    forall i | 0 <= i < |accepted| ensures accepted[i].request != r {
      assert AcceptedAs(q, accepted[i]);
    }
  }

  lemma HandlerRequests(c: Config, s: State, step: Step)
    requires RequestInv(s.req, s.chan.accepted) && IsHandlerStep(step) && HandlerEnabled(c, s, step)
    ensures RequestInv(DoHandler(c, s, step).req, DoHandler(c, s, step).chan.accepted)
  {
    var r, accepted := step.request, s.chan.accepted;
    if step.Acknowledge? {
      AckRequests(s.req, accepted, r);
    } else if step.Enqueue? {
      QueueRequests(s.req, accepted, r);
      AnswerRequests(s.req, accepted, r, 429);
    } else {
      InlineRequests(c, s, step);
    }
  }

  lemma InlineRequests(c: Config, s: State, step: Step)
    requires RequestInv(s.req, s.chan.accepted) && IsHandlerStep(step) && HandlerEnabled(c, s, step)
    requires !step.Acknowledge? && !step.Enqueue?
    ensures RequestInv(DoHandler(c, s, step).req, s.chan.accepted) && DoHandler(c, s, step).chan == s.chan
  {
    var r, accepted := step.request, s.chan.accepted;
    forall status: nat | status != 202 ensures RequestInv(Answer(s.req, r, status), accepted) {
      AnswerRequests(s.req, accepted, r, status);
    }
    forall pc | pc != AtAck ensures RequestInv(Advance(s.req, r, pc), accepted) {
      AdvanceRequests(s.req, accepted, r, pc);
    }
  }

  lemma HandlerRoute(c: Config, s: State, step: Step)
    requires RouteInv(c, s.req, s.chan.accepted) && IsHandlerStep(step) && HandlerEnabled(c, s, step)
    ensures RouteInv(c, DoHandler(c, s, step).req, DoHandler(c, s, step).chan.accepted)
  {
    var t, r := DoHandler(c, s, step), step.request;
    assert forall x :: x in t.req.handlers && x != r ==> t.req.handlers[x] == s.req.handlers[x];
  }

  /** Connect bookkeeping does not see a log entry of another kind. */
  lemma OtherEventKeepsPhase(log: seq<Event>, e: Event)
    requires !e.ConnectStart? && !e.ConnectEnd?
    ensures ConnectPhase(log + [e]) == ConnectPhase(log)
  {
    PhaseSnoc(log, e);
  }

  lemma HandlerConnect(c: Config, s: State, step: Step)
    requires IsHandlerStep(step) && HandlerEnabled(c, s, step)
    ensures ConnectPhase(DoHandler(c, s, step).log) == ConnectPhase(s.log)
  {
    HandlerFrame(c, s, step);
    OtherEventKeepsPhase(s.log, HandleStart(step.request));
  }

  /** The same request, in the same place with the same answer. */
  predicate SameAt(q: Requests, q': Requests, x: RequestId) {
    && (x in q'.handlers <==> x in q.handlers) && (x in q.handlers ==> q'.handlers[x] == q.handlers[x])
    && (x in q'.answers <==> x in q.answers) && (x in q.answers ==> q'.answers[x] == q.answers[x])
  }

  lemma AnswerOthers(q: Requests, r: RequestId, x: RequestId)
    requires x != r
    ensures forall status: nat :: SameAt(q, Answer(q, r, status), x)
    ensures r in q.handlers ==> forall pc :: SameAt(q, Advance(q, r, pc), x)
  {
  }

  /** A handler step touches its own request only. */
  lemma HandlerOthers(c: Config, s: State, step: Step, x: RequestId)
    requires IsHandlerStep(step) && HandlerEnabled(c, s, step) && x != step.request
    ensures SameAt(s.req, DoHandler(c, s, step).req, x)
  {
    AnswerOthers(s.req, step.request, x);
  }

  /** A request inside the component stays handed over when its call ends. */
  lemma EndedIsHandedOver(c: Config, s: State, step: Step)
    requires !c.async && IsHandlerStep(step) && HandlerEnabled(c, s, step) && HandlerAt(s.req, step.request, InHandler)
    ensures HandedOver(c, DoHandler(c, s, step), step.request)
  {
    assert step.EndInline?;
  }

  lemma HandlerKeepsHandedOver(c: Config, s: State, step: Step, r: RequestId)
    requires s.req.handlers.Keys !! s.req.answers.Keys
    requires IsHandlerStep(step) && HandlerEnabled(c, s, step) && HandedOver(c, s, r)
    ensures HandedOver(c, DoHandler(c, s, step), r)
  {
    HandlerFrame(c, s, step);
    if !c.async {
      if r == step.request {
        assert r in s.req.handlers;
        EndedIsHandedOver(c, s, step);
      } else {
        HandlerOthers(c, s, step, r);
      }
    }
  }

  /** With a queue, no handler is inside the component. */
  lemma HandlerStaysOut(c: Config, s: State, step: Step)
    requires c.async && IsHandlerStep(step) && HandlerEnabled(c, s, step)
    requires forall r :: r in s.req.handlers ==> s.req.handlers[r].pc != InHandler
    ensures forall r :: r in DoHandler(c, s, step).req.handlers ==>
                          DoHandler(c, s, step).req.handlers[r].pc != InHandler
  {
    var t := DoHandler(c, s, step);
    forall r | r in t.req.handlers ensures t.req.handlers[r].pc != InHandler {
      if r != step.request {
        HandlerOthers(c, s, step, r);
      }
    }
  }

  lemma HandlerStarts(c: Config, s: State, step: Step)
    requires StartInv(c, s) && RequestInv(s.req, s.chan.accepted) && IsHandlerStep(step) && HandlerEnabled(c, s, step)
    ensures StartInv(c, DoHandler(c, s, step))
  {
    var t := DoHandler(c, s, step);
    HandlerFrame(c, s, step);
    if c.async {
      HandlerStaysOut(c, s, step);
    }
    forall i | 0 <= i < |s.log| && s.log[i].HandleStart? ensures HandedOver(c, t, s.log[i].request) {
      HandlerKeepsHandedOver(c, s, step, s.log[i].request);
    }
    if t.log != s.log {
      assert !HandedOver(c, s, step.request);
    }
  }

  /** A log entry whose call is allowed by the log before it. */
  lemma ExtendCalls(log: seq<Event>, e: Event)
    requires CallsFollowConnect(log)
    requires (e.HandleStart? || e.SyncStart?) ==> ConnectReturned(log)
    ensures CallsFollowConnect(log + [e])
    ensures ConnectReturned(log) || e.ConnectEnd? ==> ConnectReturned(log + [e])
  {
    var log' := log + [e];
    forall i | 0 <= i < |log'| && (log'[i].HandleStart? || log'[i].SyncStart?) ensures ConnectReturned(log'[..i]) {
      assert log'[..i] == log[..i];
      if i == |log| {
        assert log[..i] == log;
      }
    }
    if ConnectReturned(log) {
      var k :| 0 <= k < |log| && log[k].ConnectEnd?;
      assert log'[k].ConnectEnd?;
    } else if e.ConnectEnd? {
      assert log'[|log|].ConnectEnd?;
    }
  }

  lemma HandlerGate(c: Config, s: State, step: Step)
    requires GateInv(s) && IsHandlerStep(step) && HandlerEnabled(c, s, step)
    ensures GateInv(DoHandler(c, s, step))
  {
    var t := DoHandler(c, s, step);
    HandlerFrame(c, s, step);
    if t.log != s.log {
      ExtendCalls(s.log, HandleStart(step.request));
    }
  }

  // -------------------------------------------------- worker steps

  lemma WorkerKeepsInv(c: Config, s: State, step: Step)
    requires CoreInv(c, s) && IsWorkerStep(step) && WorkerEnabled(s, step)
    ensures CoreInv(c, DoWorker(s, step))
  {
    WorkerQueue(c, s, step);
    WorkerStarts(c, s, step);
    var t := DoWorker(s, step);
    if t.log != s.log {
      assert s.chan.accepted[|s.chan.finished|] == s.chan.worker.job;
      ExtendCalls(s.log, t.log[|s.log|]);
      OtherEventKeepsPhase(s.log, t.log[|s.log|]);
    }
  }

  lemma WorkerQueue(c: Config, s: State, step: Step)
    requires QueueInv(c, s.chan) && IsWorkerStep(step) && WorkerEnabled(s, step)
    ensures QueueInv(c, DoWorker(s, step).chan)
  {
    var t := DoWorker(s, step);
    if step.WorkerTakes? {
      assert s.chan.queue == [s.chan.queue[0]] + t.chan.queue;
    } else {
      assert t.chan.finished + InHand(t.chan) == s.chan.finished + InHand(s.chan);
    }
  }

  lemma WorkerStarts(c: Config, s: State, step: Step)
    requires StartInv(c, s) && RequestInv(s.req, s.chan.accepted) && QueueInv(c, s.chan)
    requires IsWorkerStep(step) && WorkerEnabled(s, step)
    ensures StartInv(c, DoWorker(s, step))
  {
    var t := DoWorker(s, step);
    assert c.async;
    forall r | HandedOver(c, s, r) ensures HandedOver(c, t, r) {
      if i :| 0 <= i < |s.chan.finished| && s.chan.finished[i].request == r {
        assert t.chan.finished[i].request == r;
      } else {
        assert t.chan.finished[|s.chan.finished|].request == r;
      }
    }
    if t.log != s.log {
      FreshJob(c, s);
    }
  }

  /** The job in the worker's hand was not handed to the component before. */
  lemma FreshJob(c: Config, s: State)
    requires RequestInv(s.req, s.chan.accepted) && QueueInv(c, s.chan) && c.async && s.chan.worker.Taken?
    ensures !HandedOver(c, s, s.chan.worker.job.request)
  {
    assert s.chan.accepted[|s.chan.finished|] == s.chan.worker.job;
    forall i | 0 <= i < |s.chan.finished| ensures s.chan.finished[i].request != s.chan.worker.job.request {
      assert s.chan.accepted[i] == s.chan.finished[i];
    }
  }

  // -------------------------------------------------- poll and retry steps

  lemma LoopStarts(c: Config, s: State, step: Step)
    requires StartInv(c, s) && IsLoopStep(step) && LoopEnabled(s, step)
    ensures StartInv(c, DoLoop(s, step))
  {
    var t := DoLoop(s, step);
    assert t.log == s.log || (|t.log| == |s.log| + 1 && t.log[..|s.log|] == s.log && !t.log[|s.log|].HandleStart?);
    assert t.req == s.req && t.chan == s.chan;
    forall i | 0 <= i < |s.log| && s.log[i].HandleStart? ensures HandedOver(c, t, s.log[i].request) {
      assert HandedOver(c, s, s.log[i].request);
    }
  }

  lemma LoopConnect(c: Config, s: State, step: Step)
    requires ConnectInv(s.life.main, s.retry, ConnectPhase(s.log)) && IsLoopStep(step) && LoopEnabled(s, step)
    ensures var t := DoLoop(s, step);
            ConnectInv(t.life.main, t.retry, ConnectPhase(t.log))
  {
    var t := DoLoop(s, step);
    if t.log != s.log {
      assert t.log[..|s.log|] == s.log;
    }
  }

  lemma LoopGate(c: Config, s: State, step: Step)
    requires GateInv(s) && IsLoopStep(step) && LoopEnabled(s, step)
    ensures GateInv(DoLoop(s, step))
  {
    var t := DoLoop(s, step);
    assert t.req == s.req && t.chan == s.chan && t.life == s.life;
    if t.log != s.log {
      ExtendCalls(s.log, t.log[|s.log|]);
    }
  }

  lemma LoopShutdown(c: Config, s: State, step: Step)
    requires ShutdownInv(c, s) && IsLoopStep(step) && LoopEnabled(s, step)
    ensures ShutdownInv(c, DoLoop(s, step))
  {
  }

  lemma LoopKeepsInv(c: Config, s: State, step: Step)
    requires CoreInv(c, s) && IsLoopStep(step) && LoopEnabled(s, step)
    ensures CoreInv(c, DoLoop(s, step))
  {
    LoopStarts(c, s, step);
    LoopConnect(c, s, step);
    LoopGate(c, s, step);
    LoopShutdown(c, s, step);
  }

  // -------------------------------------------------- all steps

  lemma MainStarts(c: Config, s: State, step: Step)
    requires StartInv(c, s) && ShutdownInv(c, s) && RequestInv(s.req, s.chan.accepted) && IsMainStep(step)
             && MainEnabled(s, step)
    ensures StartInv(c, DoMain(c, s, step))
  {
    var t := DoMain(c, s, step);
    assert t.log == s.log || (|t.log| == |s.log| + 1 && t.log[..|s.log|] == s.log && !t.log[|s.log|].HandleStart?);
    assert t.req.answers == s.req.answers && t.chan.finished == s.chan.finished;
    forall i | 0 <= i < |s.log| && s.log[i].HandleStart? ensures HandedOver(c, t, s.log[i].request) {
      assert HandedOver(c, s, s.log[i].request);
    }
  }

  lemma MainGate(c: Config, s: State, step: Step)
    requires GateInv(s) && IsMainStep(step) && MainEnabled(s, step)
    ensures GateInv(DoMain(c, s, step))
  {
    if IsStartStep(step) {
      StartGate(c, s, step);
    } else {
      StopGate(c, s, step);
    }
  }

  lemma StartGate(c: Config, s: State, step: Step)
    requires GateInv(s) && IsStartStep(step) && MainEnabled(s, step)
    ensures GateInv(DoMain(c, s, step))
  {
    var t := DoMain(c, s, step);
    if t.log != s.log {
      ExtendCalls(s.log, t.log[|s.log|]);
    }
    assert t.chan.accepted == s.chan.accepted && t.req == s.req;
  }

  lemma StopGate(c: Config, s: State, step: Step)
    requires GateInv(s) && IsMainStep(step) && !IsStartStep(step) && MainEnabled(s, step)
    ensures GateInv(DoMain(c, s, step))
  {
    StopFrame(c, s, step);
    var t := DoMain(c, s, step);
    assert forall r :: r in t.req.handlers && PastGate(t.req.handlers[r].pc) ==>
                         r in s.req.handlers && PastGate(s.req.handlers[r].pc);
  }

  lemma MainKeepsInv(c: Config, s: State, step: Step)
    requires CoreInv(c, s) && IsMainStep(step) && MainEnabled(s, step)
    ensures CoreInv(c, DoMain(c, s, step))
  {
    MainQueue(c, s, step);
    MainShutdown(c, s, step);
    MainRequests(c, s, step);
    MainStarts(c, s, step);
    MainConnect(c, s, step);
    MainGate(c, s, step);
    MainRoute(c, s, step);
  }

  lemma MainRoute(c: Config, s: State, step: Step)
    requires RouteInv(c, s.req, s.chan.accepted) && IsMainStep(step) && MainEnabled(s, step)
    ensures RouteInv(c, DoMain(c, s, step).req, DoMain(c, s, step).chan.accepted)
  {
    MainLog(c, s, step);
  }

  lemma SettledSnoc(log: seq<Event>, e: Event)
    ensures Settled(log + [e]) == Settled(log) + if e.HandleStart? || e.Dropped? then [e.request] else []
  {
    assert (log + [e])[..|log|] == log;
  }

  lemma HandlerBooks(c: Config, s: State, step: Step)
    requires OrderInv(c, s.chan, s.log) && PollInv(c, s.polls, s.log) && IsHandlerStep(step)
             && HandlerEnabled(c, s, step)
    ensures var t := DoHandler(c, s, step);
            OrderInv(c, t.chan, t.log) && PollInv(c, t.polls, t.log)
  {
    HandlerFrame(c, s, step);
  }

  lemma MainBooks(c: Config, s: State, step: Step)
    requires OrderInv(c, s.chan, s.log) && PollInv(c, s.polls, s.log) && ShutdownInv(c, s)
    requires IsMainStep(step) && MainEnabled(s, step)
    ensures var t := DoMain(c, s, step);
            OrderInv(c, t.chan, t.log) && PollInv(c, t.polls, t.log)
  {
    MainLog(c, s, step);
    MainBegun(c, s, step);
    var t := DoMain(c, s, step);
    if t.log != s.log {
      var e := if step.CallConnect? then ConnectStart else ConnectEnd(step.ok);
      OtherEventKeepsBooks(c, s.chan, t.chan, s.log, e);
      PollSnoc(c, t.polls, s.log, e);
    }
  }

  /** A log entry that is no call of the webhook handler and no drop settles no delivery. */
  lemma OtherEventKeepsBooks(c: Config, ch: Channel, ch': Channel, log: seq<Event>, e: Event)
    requires OrderInv(c, ch, log) && !e.HandleStart? && !e.Dropped? && Begun(ch') == Begun(ch)
    ensures OrderInv(c, ch', log + [e])
  {
    SettledSnoc(log, e);
  }

  lemma PollSnoc(c: Config, polls: map<string, PollPc>, log: seq<Event>, e: Event)
    requires PollInv(c, polls, log) && (e.SyncStart? ==> Polls(c, e.binding))
    ensures PollInv(c, polls, log + [e])
  {
  }

  lemma MainBegun(c: Config, s: State, step: Step)
    requires ShutdownInv(c, s) && PollInv(c, s.polls, s.log) && IsMainStep(step) && MainEnabled(s, step)
    ensures Begun(DoMain(c, s, step).chan) == Begun(s.chan)
    ensures PollInv(c, DoMain(c, s, step).polls, s.log)
  {
  }

  lemma WorkerBooks(c: Config, s: State, step: Step)
    requires OrderInv(c, s.chan, s.log) && PollInv(c, s.polls, s.log) && QueueInv(c, s.chan)
    requires IsWorkerStep(step) && WorkerEnabled(s, step)
    ensures var t := DoWorker(s, step);
            OrderInv(c, t.chan, t.log) && PollInv(c, t.polls, t.log)
  {
    assert c.async;
    if step.WorkerBegins? {
      var job := s.chan.worker.job;
      var e := if step.factoryOk then HandleStart(job.request) else Dropped(job.request);
      JobIsSettled(s.chan, DoWorker(s, step).chan, s.log, e, job);
      PollSnoc(c, s.polls, s.log, e);
    } else {
      assert Begun(DoWorker(s, step).chan) == Begun(s.chan);
    }
  }

  lemma JobIsSettled(ch: Channel, ch': Channel, log: seq<Event>, e: Event, job: Job)
    requires Settled(log) == RequestsOf(Begun(ch)) && Begun(ch') == Begun(ch) + [job]
    requires (e.HandleStart? || e.Dropped?) && e.request == job.request
    ensures Settled(log + [e]) == RequestsOf(Begun(ch'))
  {
    SettledSnoc(log, e);
    assert RequestsOf(Begun(ch) + [job]) == RequestsOf(Begun(ch)) + [job.request];
  }

  lemma LoopBooks(c: Config, s: State, step: Step)
    requires OrderInv(c, s.chan, s.log) && PollInv(c, s.polls, s.log) && IsLoopStep(step) && LoopEnabled(s, step)
    ensures var t := DoLoop(s, step);
            OrderInv(c, t.chan, t.log) && PollInv(c, t.polls, t.log)
  {
    var t := DoLoop(s, step);
    LoopPolls(c, s, step);
    if t.log != s.log {
      var e := t.log[|s.log|];
      OtherEventKeepsBooks(c, s.chan, t.chan, s.log, e);
      PollSnoc(c, t.polls, s.log, e);
    }
  }

  lemma LoopPolls(c: Config, s: State, step: Step)
    requires PollInv(c, s.polls, s.log) && IsLoopStep(step) && LoopEnabled(s, step)
    ensures var t := DoLoop(s, step);
            && t.chan == s.chan && PollInv(c, t.polls, s.log)
            && (t.log == s.log || exists e :: t.log == s.log + [e] && IsLoopEvent(c, e))
  {
    var t := DoLoop(s, step);
    if t.log != s.log {
      assert t.log == s.log + [t.log[|s.log|]] && IsLoopEvent(c, t.log[|s.log|]);
    }
  }

  /** What poll loops and the Connect retry put in the log. */
  predicate IsLoopEvent(c: Config, e: Event) {
    e.ConnectStart? || e.ConnectEnd? || (e.SyncStart? && Polls(c, e.binding))
  }

  lemma StepKeepsBooks(c: Config, s: State, step: Step)
    requires QueueInv(c, s.chan) && ShutdownInv(c, s) && OrderInv(c, s.chan, s.log) && PollInv(c, s.polls, s.log)
    requires Enabled(c, s, step)
    ensures var t := Do(c, s, step);
            OrderInv(c, t.chan, t.log) && PollInv(c, t.polls, t.log)
  {
    if IsHandlerStep(step) {
      HandlerBooks(c, s, step);
    } else if IsWorkerStep(step) {
      WorkerBooks(c, s, step);
    } else if IsLoopStep(step) {
      LoopBooks(c, s, step);
    } else {
      MainBooks(c, s, step);
    }
  }

  /** Every step of every goroutine keeps the invariant. */
  lemma StepKeepsInv(c: Config, s: State, step: Step)
    requires Inv(c, s) && Enabled(c, s, step)
    ensures Inv(c, Do(c, s, step))
  {
    StepKeepsBooks(c, s, step);
    StepKeepsCore(c, s, step);
  }

  lemma StepKeepsCore(c: Config, s: State, step: Step)
    requires CoreInv(c, s) && Enabled(c, s, step)
    ensures CoreInv(c, Do(c, s, step))
  {
    if IsHandlerStep(step) {
      HandlerQueue(c, s, step);
      HandlerShutdown(c, s, step);
      HandlerRequests(c, s, step);
      HandlerStarts(c, s, step);
      HandlerFrame(c, s, step);
      HandlerConnect(c, s, step);
      HandlerGate(c, s, step);
      HandlerRoute(c, s, step);
    } else if IsMainStep(step) {
      MainKeepsInv(c, s, step);
    } else {
      BackgroundKeepsInv(c, s, step);
    }
  }

  lemma BackgroundKeepsInv(c: Config, s: State, step: Step)
    requires CoreInv(c, s) && (IsWorkerStep(step) || IsLoopStep(step)) && Enabled(c, s, step)
    ensures CoreInv(c, Do(c, s, step))
  {
    if IsWorkerStep(step) {
      WorkerKeepsInv(c, s, step);
    } else {
      LoopKeepsInv(c, s, step);
    }
  }

  // -------------------------------------------------- whole runs

  lemma {:induction false} RunKeepsInv(c: Config, s: State, steps: seq<Step>)
    requires Inv(c, s) && Allowed(c, s, steps)
    ensures Inv(c, After(c, s, steps))
    decreases |steps|
  {
    if steps != [] {
      StepKeepsInv(c, s, steps[0]);
      RunKeepsInv(c, Do(c, s, steps[0]), steps[1..]);
    }
  }

  lemma ReachableInv(c: Config, s: State)
    requires Reachable(c, s)
    ensures Inv(c, s)
  {
    var steps :| Allowed(c, Init(c), steps) && After(c, Init(c), steps) == s;
    InitInv(c);
    RunKeepsInv(c, Init(c), steps);
  }

  lemma InitInv(c: Config)
    ensures Inv(c, Init(c))
  {
  }

  /** What the worker has taken from the queue so far. */
  function TakenJobs(s: State): seq<Job> {
    s.chan.finished + InHand(s.chan)
  }

  /**
   In every interleaving of requests, worker and shutdown: the jobs taken are a
   prefix of the deliveries accepted, in queue order; a delivery is accepted
   exactly when it is answered 202 or its handler is about to answer so, once,
   with the payload that arrived; the queue never exceeds its depth; and no send
   meets a closed channel.
   */
  lemma DeliveriesAreKept(c: Config, s: State)
    requires Reachable(c, s)
    ensures && TakenJobs(s) <= s.chan.accepted
            && s.chan.accepted == TakenJobs(s) + s.chan.queue
            && |s.chan.queue| <= c.Depth()
            && !s.chan.panicked
            && (forall r :: Taken202(s.req, r) <==>
                            exists i :: 0 <= i < |s.chan.accepted| && s.chan.accepted[i].request == r)
            && (forall i, j :: 0 <= i < j < |s.chan.accepted| ==>
                                 s.chan.accepted[i].request != s.chan.accepted[j].request)
            && (forall i :: 0 <= i < |s.chan.accepted| ==> AcceptedAs(s.req, s.chan.accepted[i]))
  {
    ReachableInv(c, s);
  }

  /** Once the worker has ended, it is done with every accepted delivery, in order and once. */
  lemma WorkerEndsEmptyHanded(c: Config, s: State)
    requires Reachable(c, s)
    ensures s.chan.worker == Done ==> s.chan.finished == s.chan.accepted && s.req.handlers == map[]
  {
    ReachableInv(c, s);
  }

  /**
   What has become of the deliveries answered 202, by the log: handed to the component or dropped for want of a
   writer.
   */
  ghost predicate Accounted(log: seq<Event>, accepted: seq<Job>) {
    && Settled(log) == RequestsOf(accepted)
    && forall i :: 0 <= i < |accepted| ==>
                     var r := accepted[i].request;
                     (HandleStart(r) in log <==> Dropped(r) !in log)
  }

  lemma {:induction false} SettledMeaning(log: seq<Event>, r: RequestId)
    ensures r in Settled(log) <==> HandleStart(r) in log || Dropped(r) in log
  {
    if log != [] {
      var front, e := log[..|log| - 1], log[|log| - 1];
      SettledMeaning(front, r);
      assert log == front + [e];
    }
  }

  /** A request that is settled once is not both handed over and dropped. */
  lemma {:induction false} SettledOnce(log: seq<Event>, r: RequestId)
    requires Distinct(Settled(log))
    ensures !(HandleStart(r) in log && Dropped(r) in log)
  {
    if log != [] {
      var front, e := log[..|log| - 1], log[|log| - 1];
      assert log == front + [e];
      SettledSnoc(front, e);
      FrontIsDistinct(Settled(front), Settled(log));
      SettledOnce(front, r);
      SettledMeaning(front, r);
      if e == HandleStart(r) || e == Dropped(r) {
        NotAgain(Settled(front), r);
      }
    }
  }

  lemma FrontIsDistinct(xs: seq<RequestId>, ys: seq<RequestId>)
    requires xs <= ys && Distinct(ys)
    ensures Distinct(xs)
  {
    assert forall i :: 0 <= i < |xs| ==> xs[i] == ys[i];
  }

  lemma NotAgain(xs: seq<RequestId>, x: RequestId)
    requires Distinct(xs + [x])
    ensures x !in xs
  {
    var ys := xs + [x];
    forall i | 0 <= i < |xs| ensures xs[i] != x {
      assert ys[i] != ys[|xs|];
    }
  }

  /**
   The component is handed queued deliveries in the order they were accepted, each at most once, passing over
   only those dropped for want of a writer.
   */
  lemma DeliveriesAreHandedOverInOrder(c: Config, s: State)
    requires Reachable(c, s) && c.async
    ensures Settled(s.log) <= RequestsOf(s.chan.accepted) && Distinct(Settled(s.log))
    ensures forall r :: r in Settled(s.log) <==> HandleStart(r) in s.log || Dropped(r) in s.log
    ensures forall r :: !(HandleStart(r) in s.log && Dropped(r) in s.log)
  {
    ReachableInv(c, s);
    BegunIsPrefix(c, s.chan);
    forall r ensures r in Settled(s.log) <==> HandleStart(r) in s.log || Dropped(r) in s.log {
      SettledMeaning(s.log, r);
    }
    forall r ensures !(HandleStart(r) in s.log && Dropped(r) in s.log) {
      SettledOnce(s.log, r);
    }
  }

  lemma BegunIsPrefix(c: Config, ch: Channel)
    requires QueueInv(c, ch)
    ensures RequestsOf(Begun(ch)) <= RequestsOf(ch.accepted)
  {
    assert Begun(ch) <= ch.finished + InHand(ch) + ch.queue;
  }

  /**
   At a clean return the worker is done with everything answered 202, and no
   handler and no Sync is in flight. In queue order, each such delivery has
   reached the component unless it was dropped for want of a writer.
   */
  lemma CleanReturnLosesNothing(c: Config, s: State)
    requires Reachable(c, s)
    requires s.life.main == Returned(Clean)
    ensures && s.chan.finished == s.chan.accepted
            && s.req.answers.Keys == s.req.arrived.Keys
            && PollsStopped(s)
            && (forall r :: r in s.req.answers && s.req.answers[r] == 202 ==>
                              exists i :: 0 <= i < |s.chan.finished| && s.chan.finished[i] == Job(r, s.req.arrived[r]))
    ensures c.async ==> Accounted(s.log, s.chan.accepted)
  {
    ReachableInv(c, s);
    assert s.req.handlers == map[];
    forall r | r in s.req.answers && s.req.answers[r] == 202
      ensures exists i :: 0 <= i < |s.chan.finished| && s.chan.finished[i] == Job(r, s.req.arrived[r])
    {
      assert Taken202(s.req, r);
      var i :| 0 <= i < |s.chan.accepted| && s.chan.accepted[i].request == r;
      assert AcceptedAs(s.req, s.chan.accepted[i]);
      assert s.chan.finished[i] == Job(r, s.req.arrived[r]);
    }
    if c.async {
      CleanIsAccounted(c, s);
    }
  }

  lemma CleanIsAccounted(c: Config, s: State)
    requires Reachable(c, s) && c.async && s.chan.worker == Done && s.chan.finished == s.chan.accepted
    ensures Accounted(s.log, s.chan.accepted)
  {
    ReachableInv(c, s);
    assert Begun(s.chan) == s.chan.accepted;
    DeliveriesAreHandedOverInOrder(c, s);
    forall i | 0 <= i < |s.chan.accepted|
      ensures var r := s.chan.accepted[i].request;
              (HandleStart(r) in s.log <==> Dropped(r) !in s.log)
    {
      assert Settled(s.log)[i] == s.chan.accepted[i].request;
    }
  }

  /** The component's webhook handler sees each request at most once, and none that was refused. */
  lemma RefusedRequestsAreNotHandled(c: Config, s: State, k: nat)
    requires Reachable(c, s)
    requires k < |s.log| && s.log[k].HandleStart?
    ensures var r := s.log[k].request;
            && (r in s.req.answers ==> s.req.answers[r] !in {400, 404, 413, 501, 503})
            && (r in s.req.answers && s.req.answers[r] == 429 ==> !c.async && c.egress)
            && (c.async ==> Taken202(s.req, r))
            && (forall j :: 0 <= j < |s.log| && j != k && s.log[j].HandleStart? ==> s.log[j].request != r)
  {
    ReachableInv(c, s);
    assert HandedOver(c, s, s.log[k].request);
    if c.async {
      HandedOverIsQueued(c, s, s.log[k].request);
    }
  }

  /** What the worker has handed to the component came through the queue. */
  lemma HandedOverIsQueued(c: Config, s: State, r: RequestId)
    requires c.async && QueueInv(c, s.chan) && RequestInv(s.req, s.chan.accepted) && HandedOver(c, s, r)
    ensures Taken202(s.req, r)
    ensures r in s.req.answers ==> s.req.answers[r] == 202
  {
    if i :| 0 <= i < |s.chan.finished| && s.chan.finished[i].request == r {
      assert s.chan.accepted[i] == s.chan.finished[i];
      assert AcceptedAs(s.req, s.chan.accepted[i]);
    } else {
      assert s.chan.accepted[|s.chan.finished|] == s.chan.worker.job;
      assert AcceptedAs(s.req, s.chan.worker.job);
    }
  }

  /** No webhook handler, push or Sync starts before the initial Connect attempt has returned. */
  lemma NothingRunsBeforeConnect(c: Config, s: State, k: nat)
    requires Reachable(c, s)
    requires k < |s.log|
    ensures var log := s.log;
            log[k].HandleStart? || log[k].SyncStart? ==> exists j :: 0 <= j < k && log[j].ConnectEnd?
  {
    ReachableInv(c, s);
    var log := s.log;
    if log[k].HandleStart? || log[k].SyncStart? {
      assert ConnectReturned(log[..k]);
      var j :| 0 <= j < |log[..k]| && log[..k][j].ConnectEnd?;
      assert log[j].ConnectEnd?;
    }
  }

  lemma {:induction false} PhasePrefix(log: seq<Event>, k: nat)
    requires k <= |log| && ConnectPhase(log) != Broken
    ensures ConnectPhase(log[..k]) != Broken
  {
    if k < |log| {
      PhasePrefix(log[..|log| - 1], k);
      assert log[..|log| - 1][..k] == log[..k];
    } else {
      assert log[..k] == log;
    }
  }

  /** Between a Connect that started, or one that succeeded, and the next start lies a failed return. */
  lemma {:induction false} FailureBetween(log: seq<Event>, i: nat, j: nat)
    requires i < j < |log| && ConnectPhase(log[..j + 1]) != Broken
    requires log[i] == ConnectStart && log[j] == ConnectStart
    ensures exists k :: i < k < j && log[k] == ConnectEnd(false)
  {
    assert log[..j + 1][..j] == log[..j];
    assert ConnectPhase(log[..j]) == Failed || ConnectPhase(log[..j]) == Never;
    LastConnectEvent(log, i, j);
  }

  lemma {:induction false} LastConnectEvent(log: seq<Event>, i: nat, n: nat)
    requires i < n <= |log| && log[i] == ConnectStart
    requires ConnectPhase(log[..n]) == Failed || ConnectPhase(log[..n]) == Never
    ensures exists k :: i < k < n && log[k] == ConnectEnd(false)
  {
    assert log[..n][..n - 1] == log[..n - 1];
    if i < n - 1 && !log[n - 1].ConnectEnd? {
      LastConnectEvent(log, i, n - 1);
      var k :| i < k < n - 1 && log[k] == ConnectEnd(false);
    } else {
      assert log[n - 1] == ConnectEnd(false);
    }
  }

  lemma {:induction false} GoodStays(log: seq<Event>, i: nat, n: nat)
    requires i < n <= |log| && log[i] == ConnectEnd(true) && ConnectPhase(log[..n]) != Broken
    ensures ConnectPhase(log[..n]) == Good
  {
    assert log[..n][..n - 1] == log[..n - 1];
    if i < n - 1 {
      GoodStays(log, i, n - 1);
    }
  }

  lemma PhaseMeaning(log: seq<Event>, i: nat, j: nat)
    requires ConnectPhase(log) != Broken && i < j < |log| && log[j] == ConnectStart
    ensures log[i] != ConnectEnd(true)
    ensures log[i] == ConnectStart ==> exists k :: i < k < j && log[k] == ConnectEnd(false)
  {
    PhasePrefix(log, j + 1);
    assert log[..j + 1][..j] == log[..j];
    if log[i] == ConnectStart {
      FailureBetween(log, i, j);
    } else if log[i] == ConnectEnd(true) {
      PhasePrefix(log, j);
      GoodStays(log, i, j);
    }
  }

  /** Connect calls never overlap, and none follows a successful one. */
  lemma ConnectCallsAreDisciplined(c: Config, s: State, i: nat, j: nat)
    requires Reachable(c, s)
    requires i < j < |s.log| && s.log[j] == ConnectStart
    ensures s.log[i] != ConnectEnd(true)
    ensures s.log[i] == ConnectStart ==> exists k :: i < k < j && s.log[k] == ConnectEnd(false)
  {
    ReachableInv(c, s);
    PhaseMeaning(s.log, i, j);
  }

  /** What a run has done stays done: answers, acceptances and processing are never taken back. */
  ghost predicate Grows(s: State, t: State) {
    && s.chan.accepted <= t.chan.accepted
    && s.chan.finished <= t.chan.finished
    && s.log <= t.log
    && (s.chan.closed ==> t.chan.closed && t.chan.accepted == s.chan.accepted)
    && (forall r :: r in s.req.answers ==> r in t.req.answers && t.req.answers[r] == s.req.answers[r])
  }

  lemma StepGrows(c: Config, s: State, step: Step)
    requires RequestInv(s.req, s.chan.accepted) && Enabled(c, s, step)
    ensures Grows(s, Do(c, s, step))
  {
    if IsHandlerStep(step) {
      HandlerGrows(c, s, step);
    } else if IsMainStep(step) {
      MainGrows(c, s, step);
    } else {
      BackgroundGrows(c, s, step);
    }
  }

  lemma BackgroundGrows(c: Config, s: State, step: Step)
    requires (IsWorkerStep(step) || IsLoopStep(step)) && Enabled(c, s, step)
    ensures Grows(s, Do(c, s, step))
  {
    assert Do(c, s, step).req == s.req;
  }

  lemma MainGrows(c: Config, s: State, step: Step)
    requires IsMainStep(step) && MainEnabled(s, step)
    ensures Grows(s, DoMain(c, s, step))
  {
    assert DoMain(c, s, step).req.answers == s.req.answers;
  }

  lemma HandlerGrows(c: Config, s: State, step: Step)
    requires RequestInv(s.req, s.chan.accepted) && IsHandlerStep(step) && HandlerEnabled(c, s, step)
    ensures Grows(s, DoHandler(c, s, step))
  {
    HandlerFrame(c, s, step);
  }

  /** Whatever happens next, nothing a reachable state has answered, accepted or finished is undone. */
  lemma {:induction false} HistoryIsPermanent(c: Config, s: State, steps: seq<Step>)
    requires Inv(c, s) && Allowed(c, s, steps)
    ensures Grows(s, After(c, s, steps))
    decreases |steps|
  {
    if steps != [] {
      var t := Do(c, s, steps[0]);
      StepKeepsInv(c, s, steps[0]);
      StepGrows(c, s, steps[0]);
      HistoryIsPermanent(c, t, steps[1..]);
      GrowsTransitive(s, t, After(c, t, steps[1..]));
    }
  }

  lemma GrowsTransitive(s: State, t: State, u: State)
    requires Grows(s, t) && Grows(t, u)
    ensures Grows(s, u)
  {
  }

  // -------------------------------------------------- the final drain makes progress

  /** How many more steps the worker takes at most before it ends. */
  function DrainRank(ch: Channel): nat {
    4 * |ch.queue| + match ch.worker case Taken(_) => 3 case Handling(_) => 2 case Idle => 1 case _ => 0
  }

  function WorkerSteps(steps: seq<Step>): nat {
    if steps == [] then 0 else (if IsWorkerStep(steps[0]) then 1 else 0) + WorkerSteps(steps[1..])
  }

  lemma ClosedQueueOnlyDrains(c: Config, s: State, step: Step)
    requires ShutdownInv(c, s) && s.chan.closed && Enabled(c, s, step)
    ensures var t := Do(c, s, step);
            && t.chan.closed
            && DrainRank(t.chan) + (if IsWorkerStep(step) then 1 else 0) <= DrainRank(s.chan)
  {
    if IsMainStep(step) {
      ClosedMain(c, s, step);
    } else if IsWorkerStep(step) {
      ClosedWorker(s, step);
    } else if IsHandlerStep(step) {
      ClosedHandler(c, s, step);
    }
  }

  lemma ClosedMain(c: Config, s: State, step: Step)
    requires ShutdownInv(c, s) && s.chan.closed && IsMainStep(step) && MainEnabled(s, step)
    ensures DoMain(c, s, step).chan == s.chan
  {
  }

  lemma ClosedWorker(s: State, step: Step)
    requires s.chan.closed && IsWorkerStep(step) && WorkerEnabled(s, step)
    ensures DoWorker(s, step).chan.closed && DrainRank(DoWorker(s, step).chan) < DrainRank(s.chan)
  {
  }

  lemma ClosedHandler(c: Config, s: State, step: Step)
    requires s.chan.closed && IsHandlerStep(step) && HandlerEnabled(c, s, step)
    ensures var ch := DoHandler(c, s, step).chan;
            ch.closed && ch.queue == s.chan.queue && ch.worker == s.chan.worker
  {
  }

  /** In a closed queue the worker can always go on until it has ended. */
  lemma WorkerIsNeverStuck(c: Config, s: State)
    requires Reachable(c, s) && s.chan.closed && s.chan.worker != Done
    ensures exists step :: IsWorkerStep(step) && WorkerEnabled(s, step)
  {
    ReachableInv(c, s);
    var step := match s.chan.worker
      case Taken(_) => WorkerBegins(true)
      case Handling(_) => WorkerEnds
      case _ => if s.chan.queue == [] then WorkerExits else WorkerTakes;
    assert IsWorkerStep(step) && WorkerEnabled(s, step);
  }

  /**
   The drain is finite: however the other goroutines interleave, the worker ends within DrainRank of its own
   steps.
   */
  lemma {:induction false} DrainIsBounded(c: Config, s: State, steps: seq<Step>)
    requires Inv(c, s) && s.chan.closed && Allowed(c, s, steps)
    ensures WorkerSteps(steps) + DrainRank(After(c, s, steps).chan) <= DrainRank(s.chan)
    ensures WorkerSteps(steps) == DrainRank(s.chan) ==>
              After(c, s, steps).chan.worker == Done && After(c, s, steps).chan.finished == s.chan.accepted
    decreases |steps|
  {
    HistoryIsPermanent(c, s, steps);
    RunKeepsInv(c, s, steps);
    if steps != [] {
      ClosedQueueOnlyDrains(c, s, steps[0]);
      StepKeepsInv(c, s, steps[0]);
      DrainIsBounded(c, Do(c, s, steps[0]), steps[1..]);
    }
    if DrainRank(After(c, s, steps).chan) == 0 {
      RankZero(c, After(c, s, steps));
    }
  }

  lemma RankZero(c: Config, s: State)
    requires Inv(c, s) && s.chan.closed && DrainRank(s.chan) == 0
    ensures s.chan.worker == Done && s.chan.finished == s.chan.accepted
  {
  }

  // -------------------------------------------------- the exits that do not drain

  lemma {:induction false} RunAppend(c: Config, s: State, steps: seq<Step>, one: Step)
    requires Allowed(c, s, steps) && Enabled(c, After(c, s, steps), one)
    ensures Allowed(c, s, steps + [one])
    ensures After(c, s, steps + [one]) == Do(c, After(c, s, steps), one)
    decreases |steps|
  {
    if steps == [] {
      assert steps + [one] == [one];
    } else {
      RunAppend(c, Do(c, s, steps[0]), steps[1..], one);
      assert (steps + [one])[1..] == steps[1..] + [one];
    }
  }

  lemma ReachNext(c: Config, s: State, step: Step)
    requires Reachable(c, s) && Enabled(c, s, step)
    ensures Reachable(c, Do(c, s, step))
  {
    var steps :| Allowed(c, Init(c), steps) && After(c, Init(c), steps) == s;
    RunAppend(c, Init(c), steps, step);
  }

  lemma ReachMain(c: Config, s: State, step: Step, t: State)
    requires Reachable(c, s) && IsMainStep(step) && MainEnabled(s, step) && t == DoMain(c, s, step)
    ensures Reachable(c, t)
  {
    ReachNext(c, s, step);
  }

  lemma ReachHandler(c: Config, s: State, step: Step, t: State)
    requires Reachable(c, s) && IsHandlerStep(step) && HandlerEnabled(c, s, step) && t == DoHandler(c, s, step)
    ensures Reachable(c, t)
  {
    ReachNext(c, s, step);
  }

  lemma ReachWorker(c: Config, s: State, step: Step, t: State)
    requires Reachable(c, s) && IsWorkerStep(step) && WorkerEnabled(s, step) && t == DoWorker(s, step)
    ensures Reachable(c, t)
  {
    ReachNext(c, s, step);
  }

  lemma ReachLoop(c: Config, s: State, step: Step, t: State)
    requires Reachable(c, s) && IsLoopStep(step) && LoopEnabled(s, step) && t == DoLoop(s, step)
    ensures Reachable(c, t)
  {
    ReachNext(c, s, step);
  }

  const NO_REQUESTS := Requests(map[], map[], map[])

  function EmptyChannel(worker: WorkerPc): Channel {
    Channel([], false, false, [], [], worker)
  }

  /** No poll loop is in the middle of anything. */
  ghost predicate PollsAtRest(s: State) {
    forall b :: b in s.polls ==> s.polls[b] == NotPolling || s.polls[b] == PollIdle || s.polls[b] == PollDone
  }

  lemma InitIsReachable(c: Config)
    ensures Reachable(c, Init(c))
  {
    assert Allowed(c, Init(c), []) && After(c, Init(c), []) == Init(c);
  }

  /** Every server can come to listen. */
  lemma ListeningIsReachable(c: Config) returns (s: State)
    requires c.async
    ensures Reachable(c, s) && s.life == Life(Listening, true, true, false) && s.req == NO_REQUESTS
            && s.chan == EmptyChannel(Idle)
  {
    InitIsReachable(c);
    var s0 := Init(c);
    var s1 := DoMain(c, s0, SetGate);
    ReachMain(c, s0, SetGate, s1);
    var s2 := DoMain(c, s1, StartWorker);
    ReachMain(c, s1, StartWorker, s2);
    s := DoMain(c, s2, SpawnListener);
    ReachMain(c, s2, SpawnListener, s);
  }

  lemma ConnectedIsReachable(c: Config) returns (s: State)
    requires c.async
    ensures Reachable(c, s) && s.life == Life(Connected(true), true, true, false) && s.req == NO_REQUESTS
            && s.chan == EmptyChannel(Idle)
  {
    var s0 := ListeningIsReachable(c);
    var s1 := DoMain(c, s0, CallConnect);
    ReachMain(c, s0, CallConnect, s1);
    s := DoMain(c, s1, ConnectReturns(true));
    ReachMain(c, s1, ConnectReturns(true), s);
  }

  lemma ServingIsReachable(c: Config) returns (s: State)
    requires c.async
    ensures Reachable(c, s) && s.life == Life(Serving, false, true, false) && s.req == NO_REQUESTS
            && s.chan == EmptyChannel(Idle)
    ensures PollsAtRest(s)
  {
    var s0 := ConnectedIsReachable(c);
    var s1 := DoMain(c, s0, OpenGate);
    ReachMain(c, s0, OpenGate, s1);
    s := DoMain(c, s1, StartLoops);
    ReachMain(c, s1, StartLoops, s);
  }

  /** One request, for d, at this point. */
  function OneRequest(d: Delivery, pc: HandlerPc): Requests {
    Requests(map[0 := Handler(d, pc)], map[0 := d], map[])
  }

  lemma AdvanceOne(d: Delivery, pc: HandlerPc, pc': HandlerPc)
    ensures Advance(OneRequest(d, pc), 0, pc') == OneRequest(d, pc')
  {
  }

  lemma GateIsReachable(c: Config, d: Delivery) returns (s: State)
    requires c.async && ServesWebhook(c, d.binding)
    ensures Reachable(c, s) && s.life == Life(Serving, false, true, false) && s.req == OneRequest(d, AtGate)
            && s.chan == EmptyChannel(Idle)
    ensures PollsAtRest(s)
  {
    var s0 := ServingIsReachable(c);
    var s1 := s0.(req := OneRequest(d, AtRoute));
    ReachMain(c, s0, Arrive(0, d), s1);
    AdvanceOne(d, AtRoute, AtGate);
    s := s1.(req := OneRequest(d, AtGate));
    ReachHandler(c, s1, Route(0), s);
  }

  lemma DispatchIsReachable(c: Config, d: Delivery) returns (s: State)
    requires c.async && ServesWebhook(c, d.binding)
    ensures Reachable(c, s) && s.life == Life(Serving, false, true, false) && s.req == OneRequest(d, AtDispatch)
            && s.chan == EmptyChannel(Idle)
    ensures PollsAtRest(s)
  {
    var s0 := GateIsReachable(c, d);
    AdvanceOne(d, AtGate, AtBody);
    AdvanceOne(d, AtBody, AtValidate);
    AdvanceOne(d, AtValidate, AtDispatch);
    var s1 := s0.(req := OneRequest(d, AtBody));
    ReachHandler(c, s0, CheckGate(0), s1);
    var s2 := s0.(req := OneRequest(d, AtValidate));
    ReachHandler(c, s1, ReadBody(0, BodyOk), s2);
    s := s0.(req := OneRequest(d, AtDispatch));
    ReachHandler(c, s2, Validate(0, true), s);
  }

  /** The channel with one accepted job that its worker has not taken. */
  function OneQueued(job: Job, closed: bool): Channel {
    Channel([job], closed, false, [job], [], Idle)
  }

  /** A server that has answered one delivery 202 and not started on it. */
  ghost predicate Owes(c: Config, s: State, job: Job, closed: bool) {
    Reachable(c, s) && s.req.handlers == map[] && s.chan == OneQueued(job, closed)
  }

  lemma OwingIsReachable(c: Config, d: Delivery) returns (s: State)
    requires c.async && ServesWebhook(c, d.binding)
    ensures Owes(c, s, Job(0, d), false) && s.life == Life(Serving, false, true, false) && PollsAtRest(s)
  {
    var s0 := DispatchIsReachable(c, d);
    AdvanceOne(d, AtDispatch, AtAck);
    var s1 := s0.(req := OneRequest(d, AtAck), chan := OneQueued(Job(0, d), false));
    ReachHandler(c, s0, Enqueue(0), s1);
    s := s1.(req := Answer(s1.req, 0, 202));
    ReachHandler(c, s1, Acknowledge(0), s);
    assert s1.req.handlers - {0} == map[];
  }

  /** Once the context is cancelled, idle poll loops can all end without anything else happening. */
  lemma {:induction false} PollsCanStop(c: Config, s: State) returns (t: State)
    requires Reachable(c, s) && s.life.cancelled && PollsAtRest(s)
    ensures Reachable(c, t) && t == s.(polls := t.polls) && PollsStopped(t)
    decreases |Idlers(s.polls)|
  {
    if b :| b in s.polls && s.polls[b] == PollIdle {
      var s' := s.(polls := s.polls[b := PollDone]);
      ReachLoop(c, s, PollExits(b), s');
      FewerIdle(s.polls, b);
      t := PollsCanStop(c, s');
    } else {
      t := s;
    }
  }

  function Idlers(polls: map<string, PollPc>): set<string> {
    set b | b in polls && polls[b] == PollIdle
  }

  lemma FewerIdle(polls: map<string, PollPc>, b: string)
    requires b in polls && polls[b] == PollIdle
    ensures |Idlers(polls[b := PollDone])| < |Idlers(polls)|
  {
    assert Idlers(polls[b := PollDone]) == Idlers(polls) - {b};
  }

  /** The serve error returns while a delivery is owed. */
  lemma LossOnServeError(c: Config, d: Delivery) returns (s: State)
    requires c.async && ServesWebhook(c, d.binding)
    ensures Owes(c, s, Job(0, d), false) && s.life.main == Returned(ServeFailed)
  {
    var s0 := OwingIsReachable(c, d);
    var s1 := DoMain(c, s0, ServeError);
    ReachMain(c, s0, ServeError, s1);
    var s2 := PollsCanStop(c, s1);
    s := DoMain(c, s2, FailReturn);
    ReachMain(c, s2, FailReturn, s);
  }

  lemma ShutdownIsReachable(c: Config, d: Delivery) returns (s: State)
    requires c.async && ServesWebhook(c, d.binding)
    ensures Owes(c, s, Job(0, d), false) && s.life.main == ShuttingDown
  {
    var s0 := OwingIsReachable(c, d);
    var s1 := DoMain(c, s0, StopSignal);
    ReachMain(c, s0, StopSignal, s1);
    var s2 := PollsCanStop(c, s1);
    s := DoMain(c, s2, WaitPolls);
    ReachMain(c, s2, WaitPolls, s);
  }

  /** So does a failed Shutdown. */
  lemma LossOnShutdownError(c: Config, d: Delivery) returns (s: State)
    requires c.async && ServesWebhook(c, d.binding)
    ensures Owes(c, s, Job(0, d), false) && s.life.main == Returned(ShutdownFailed)
  {
    var s0 := ShutdownIsReachable(c, d);
    s := DoMain(c, s0, ShutdownError);
    ReachMain(c, s0, ShutdownError, s);
  }

  lemma DrainingIsReachable(c: Config, d: Delivery) returns (s: State)
    requires c.async && ServesWebhook(c, d.binding)
    ensures Owes(c, s, Job(0, d), true) && s.life.main == Draining
  {
    var s0 := ShutdownIsReachable(c, d);
    var s1 := DoMain(c, s0, ShutdownOk);
    ReachMain(c, s0, ShutdownOk, s1);
    s := DoMain(c, s1, CloseQueue);
    ReachMain(c, s1, CloseQueue, s);
  }

  /** And a drain that runs out of time. */
  lemma LossOnDrainTimeout(c: Config, d: Delivery) returns (s: State)
    requires c.async && ServesWebhook(c, d.binding)
    ensures Owes(c, s, Job(0, d), true) && s.life.main == Returned(DrainTimedOut)
  {
    var s0 := DrainingIsReachable(c, d);
    s := DoMain(c, s0, DrainTimeout);
    ReachMain(c, s0, DrainTimeout, s);
  }

  /** The worker takes the one job owed. */
  lemma TakenIsReachable(c: Config, d: Delivery) returns (s: State)
    requires c.async && ServesWebhook(c, d.binding)
    ensures Reachable(c, s) && s.life.main == Draining
    ensures s.chan == Channel([], true, false, [Job(0, d)], [], Taken(Job(0, d)))
  {
    var s0 := DrainingIsReachable(c, d);
    s := s0.(chan := Channel([], true, false, [Job(0, d)], [], Taken(Job(0, d))));
    ReachWorker(c, s0, WorkerTakes, s);
  }

  /** With its job done, the worker ends and the server returns cleanly. */
  lemma CleanFollows(c: Config, s: State, job: Job) returns (t: State)
    requires Reachable(c, s) && c.async && s.life.main == Draining
    requires s.chan == Channel([], true, false, [job], [job], Idle)
    ensures Reachable(c, t) && t.life.main == Returned(Clean) && t.chan.finished == t.chan.accepted == [job]
    ensures t.log == s.log && t.req == s.req
  {
    var s1 := s.(chan := Channel([], true, false, [job], [job], Done));
    ReachWorker(c, s, WorkerExits, s1);
    t := DoMain(c, s1, DrainDone);
    ReachMain(c, s1, DrainDone, t);
  }

  /** The clean return is reachable with a delivery accepted that the component was handed. */
  lemma CleanReturnIsReachable(c: Config, d: Delivery) returns (s: State)
    requires c.async && ServesWebhook(c, d.binding)
    ensures Reachable(c, s) && s.life.main == Returned(Clean) && s.chan.finished == s.chan.accepted == [Job(0, d)]
    ensures HandleStart(0) in s.log
  {
    var s0 := TakenIsReachable(c, d);
    var job := Job(0, d);
    var s1 := s0.(chan := s0.chan.(worker := Handling(job)), log := s0.log + [HandleStart(0)]);
    ReachWorker(c, s0, WorkerBegins(true), s1);
    var s2 := s1.(chan := Channel([], true, false, [job], [job], Idle));
    ReachWorker(c, s1, WorkerEnds, s2);
    s := CleanFollows(c, s2, job);
    assert s.log[|s0.log|] == HandleStart(0);
  }

  /** It is reachable as well with a delivery that was dropped for want of a writer. */
  lemma LossOnFailedFactory(c: Config, d: Delivery) returns (s: State)
    requires c.async && ServesWebhook(c, d.binding)
    ensures Reachable(c, s) && s.life.main == Returned(Clean) && s.chan.finished == s.chan.accepted == [Job(0, d)]
    ensures Dropped(0) in s.log
  {
    var s0 := TakenIsReachable(c, d);
    var job := Job(0, d);
    var s1 := s0.(chan := Channel([], true, false, [job], [job], Idle), log := s0.log + [Dropped(0)]);
    ReachWorker(c, s0, WorkerBegins(false), s1);
    s := CleanFollows(c, s1, job);
    assert s.log[|s0.log|] == Dropped(0);
  }

  /** A delivery was answered 202 and the component has not been handed it. */
  ghost predicate Unhandled(s: State, r: RequestId) {
    r in s.req.answers && s.req.answers[r] == 202 && HandleStart(r) !in s.log
  }

  /** Some run returns so with a delivery that was answered 202 and never handed to the component. */
  ghost predicate Loses(c: Config, s: State, outcome: Outcome) {
    Reachable(c, s) && s.life.main == Returned(outcome) && exists r :: Unhandled(s, r)
  }

  /** Every writer the worker asked for was made. */
  ghost predicate NothingDropped(s: State) {
    forall r :: Dropped(r) !in s.log
  }

  /** The server queues deliveries: it is asynchronous and serves some webhook binding. */
  ghost predicate QueuesDeliveries(c: Config) {
    c.async && exists b :: ServesWebhook(c, b)
  }

  /** Only a server that queues deliveries answers any of them 202. */
  lemma OnlyQueuedAreAnswered202(c: Config, s: State, r: RequestId)
    requires Reachable(c, s) && Unhandled(s, r)
    ensures QueuesDeliveries(c) && exists i :: 0 <= i < |s.chan.accepted| && s.chan.accepted[i].request == r
  {
    ReachableInv(c, s);
    assert Taken202(s.req, r);
    var i :| 0 <= i < |s.chan.accepted| && s.chan.accepted[i].request == r;
    assert ServesWebhook(c, s.chan.accepted[i].delivery.binding);
  }

  /**
   After a clean return a delivery answered 202 has not reached the component if and only if its writer could
   not be made.
   */
  lemma CleanReturnsLoseOnlyTheDropped(c: Config, s: State, r: RequestId)
    requires Reachable(c, s) && s.life.main == Returned(Clean) && r in s.req.answers && s.req.answers[r] == 202
    ensures Unhandled(s, r) <==> Dropped(r) in s.log
  {
    ReachableInv(c, s);
    CleanReturnLosesNothing(c, s);
    assert Taken202(s.req, r);
    var i :| 0 <= i < |s.chan.accepted| && s.chan.accepted[i].request == r;
  }

  /** A delivery owed is unhandled and was not dropped. */
  lemma OwedIsUnhandled(c: Config, s: State, job: Job, closed: bool)
    requires c.async && Owes(c, s, job, closed)
    ensures Unhandled(s, job.request) && NothingDropped(s)
  {
    ReachableInv(c, s);
    assert s.chan.accepted[0] == job && AcceptedAs(s.req, job);
    assert Settled(s.log) == [];
    forall r ensures HandleStart(r) !in s.log && Dropped(r) !in s.log {
      SettledMeaning(s.log, r);
    }
  }

  lemma LossOn(c: Config, d: Delivery, outcome: Outcome) returns (s: State)
    requires c.async && ServesWebhook(c, d.binding) && outcome != Clean
    ensures Loses(c, s, outcome) && NothingDropped(s)
  {
    match outcome {
      case ServeFailed => s := LossOnServeError(c, d);
      case ShutdownFailed => s := LossOnShutdownError(c, d);
      case DrainTimedOut => s := LossOnDrainTimeout(c, d);
    }
    OwedIsUnhandled(c, s, Job(0, d), outcome == DrainTimedOut);
  }

  /**
   In every configuration: as long as writers can be made, a way of returning can
   lose a delivery answered 202 if and only if it is not the clean one and the
   server queues deliveries. Where a writer cannot be made, every way can.
   */
  lemma OnlyCleanReturnsAreLossFree(c: Config, outcome: Outcome)
    ensures (exists s :: Loses(c, s, outcome) && NothingDropped(s)) <==> outcome != Clean && QueuesDeliveries(c)
    ensures (exists s :: Loses(c, s, outcome)) <==> QueuesDeliveries(c)
  {
    if QueuesDeliveries(c) {
      var b :| ServesWebhook(c, b);
      if outcome == Clean {
        var s := LossOnFailedFactory(c, Delivery(b, ""));
        DroppedIsLost(c, s);
      } else {
        var s := LossOn(c, Delivery(b, ""), outcome);
      }
    }
    forall s | Loses(c, s, outcome) ensures QueuesDeliveries(c) && (outcome == Clean ==> !NothingDropped(s)) {
      var r :| Unhandled(s, r);
      OnlyQueuedAreAnswered202(c, s, r);
      if outcome == Clean {
        CleanReturnsLoseOnlyTheDropped(c, s, r);
      }
    }
  }

  lemma DroppedIsLost(c: Config, s: State)
    requires Reachable(c, s) && s.life.main == Returned(Clean) && s.chan.accepted != []
    requires Dropped(s.chan.accepted[0].request) in s.log
    ensures Loses(c, s, Clean)
  {
    var r := s.chan.accepted[0].request;
    ReachableInv(c, s);
    assert AcceptedAs(s.req, s.chan.accepted[0]);
    CleanReturnsLoseOnlyTheDropped(c, s, r);
  }

  /** `ListenAndServe` returns nil after a clean drain and after one that ran out of time alike. */
  predicate ReturnsNil(outcome: Outcome) {
    outcome == Clean || outcome == DrainTimedOut
  }

  /**
   What a caller can know: before the call, the configuration says whether
   anything can be lost at all; after it, a nil return does not say that nothing
   was, even if every writer could be made, except where nothing can be.
   */
  lemma LossIsDecidedByTheConfiguration(c: Config)
    ensures (exists s, outcome :: Loses(c, s, outcome)) <==> QueuesDeliveries(c)
    ensures (exists s, outcome :: ReturnsNil(outcome) && Loses(c, s, outcome) && NothingDropped(s)) <==>
            QueuesDeliveries(c)
  {
    if QueuesDeliveries(c) {
      OnlyCleanReturnsAreLossFree(c, DrainTimedOut);
      var s :| Loses(c, s, DrainTimedOut) && NothingDropped(s);
      assert ReturnsNil(DrainTimedOut) && Loses(c, s, DrainTimedOut) && NothingDropped(s);
    }
    if s, outcome :| Loses(c, s, outcome) {
      OnlyCleanReturnsAreLossFree(c, outcome);
    }
  }

  // -------------------------------------------------- the egress server

  /** Only bindings that poll are synced. */
  lemma OnlyPollBindingsAreSynced(c: Config, s: State, k: nat)
    requires Reachable(c, s) && k < |s.log| && s.log[k].SyncStart?
    ensures Polls(c, s.log[k].binding)
  {
    ReachableInv(c, s);
  }

  /**
   The egress server: no push reaches the component before the initial Connect
   attempt has returned, Connect calls never overlap and none follows a success,
   a push reaches the component at most once and never after a 400, 501 or 503,
   and the component is called in no other way.
   */
  lemma EgressPushesFollowConnect(c: Config, s: State, k: nat)
    requires IsEgress(c) && Reachable(c, s) && k < |s.log|
    ensures !s.log[k].SyncStart? && !s.log[k].Dropped?
    ensures s.log[k].HandleStart? ==> exists j :: 0 <= j < k && s.log[j].ConnectEnd?
    ensures s.log[k].HandleStart? && s.log[k].request in s.req.answers ==>
              s.req.answers[s.log[k].request] !in {400, 404, 413, 501, 503}
    ensures forall j :: 0 <= j < |s.log| && j != k && s.log[j].HandleStart? ==> s.log[j] != s.log[k]
    ensures s.log[k] == ConnectStart ==>
              forall i :: 0 <= i < k ==>
                            && s.log[i] != ConnectEnd(true)
                            && (s.log[i] == ConnectStart ==> FailsBetween(s.log, i, k))
  {
    ReachableInv(c, s);
    NothingRunsBeforeConnect(c, s, k);
    if s.log[k].SyncStart? {
      OnlyPollBindingsAreSynced(c, s, k);
    }
    if s.log[k].HandleStart? {
      RefusedRequestsAreNotHandled(c, s, k);
    }
    if s.log[k] == ConnectStart {
      forall i | 0 <= i < k
        ensures s.log[i] != ConnectEnd(true) && (s.log[i] == ConnectStart ==> FailsBetween(s.log, i, k)) {
        ConnectCallsAreDisciplined(c, s, i, k);
      }
    }
  }

  ghost predicate FailsBetween(log: seq<Event>, i: nat, k: nat) {
    exists m :: i < m < k < |log| && log[m] == ConnectEnd(false)
  }
}
