/**
 What the server answers, and what it starts: each answer tied to what happened
 to the request, in one step and over whole runs, with the numbers and modes
 spelled out; and the calls that are reachable exactly where they are due.
 */
module ServerAnswers {
  import opened ServerProtocol
  import opened ServerSafety

  /** The jobs the queue can hold: 16 unless a positive depth is configured. */
  function Capacity(c: Config): nat {
    if c.queueDepth <= 0 then 16 else c.queueDepth
  }

  /** A binding with a webhook: its mode is webhook or both. */
  predicate TakesWebhooks(c: Config, b: string) {
    b in c.bindings && (c.bindings[b] == WebhookMode || c.bindings[b] == BothModes)
  }

  /** A binding that is polled: its mode is poll or both. */
  predicate IsPolled(c: Config, b: string) {
    b in c.bindings && (c.bindings[b] == PollMode || c.bindings[b] == BothModes)
  }

  lemma ModesMean(c: Config, b: string)
    ensures ServesWebhook(c, b) <==> TakesWebhooks(c, b)
    ensures Polls(c, b) <==> IsPolled(c, b)
  {
  }

  // -------------------------------------------------- one request, step by step

  /** The request is answered with this status and gone; nothing else about requests changes. */
  ghost predicate Answered(s: State, t: State, r: RequestId, status: nat) {
    t.req == s.req.(handlers := s.req.handlers - {r}, answers := s.req.answers[r := status])
  }

  /** The request goes on to this point, unanswered. */
  ghost predicate GoesTo(s: State, t: State, r: RequestId, pc: HandlerPc)
    requires r in s.req.handlers
  {
    t.req == s.req.(handlers := s.req.handlers[r := Handler(s.req.handlers[r].delivery, pc)])
  }

  /**
   The router lets a request through if and only if its binding takes webhooks; it answers 404, or 501 for a
   push lane.
   */
  lemma RouterAnswers(c: Config, s: State, r: RequestId)
    requires HandlerAt(s.req, r, AtRoute)
    ensures HandlerEnabled(c, s, Route(r))
    ensures var t := DoHandler(c, s, Route(r));
            && t.log == s.log && t.chan == s.chan
            && if TakesWebhooks(c, s.req.handlers[r].delivery.binding) then GoesTo(s, t, r, AtGate)
               else Answered(s, t, r, if c.egress then 501 else 404)
  {
    ModesMean(c, s.req.handlers[r].delivery.binding);
  }

  /** The initial Connect attempt is not over. */
  predicate ConnectIsPending(m: MainPc) {
    m == Gated || m == WorkerStarted || m == Listening || m == Connecting || m.Connected?
  }

  /** In every reachable state the gate answers 503 if and only if the initial Connect attempt is not over. */
  lemma GateAnswers(c: Config, s: State, r: RequestId)
    requires Reachable(c, s) && HandlerAt(s.req, r, AtGate)
    ensures HandlerEnabled(c, s, CheckGate(r))
    ensures var t := DoHandler(c, s, CheckGate(r));
            && t.log == s.log && t.chan == s.chan
            && if ConnectIsPending(s.life.main) then Answered(s, t, r, 503) else GoesTo(s, t, r, AtBody)
  {
    ReachableInv(c, s);
    ReachableAnswers(c, s);
  }

  /** A body that cannot be read or is not valid is refused: 400, or 413 for a webhook that is too large. */
  lemma BodyAnswers(c: Config, s: State, r: RequestId, read: BodyRead)
    requires HandlerAt(s.req, r, AtBody)
    ensures HandlerEnabled(c, s, ReadBody(r, read))
    ensures var t := DoHandler(c, s, ReadBody(r, read));
            && t.log == s.log && t.chan == s.chan
            && (read == BodyOk ==> GoesTo(s, t, r, AtValidate))
            && (read == BodyFailed ==> Answered(s, t, r, 400))
            && (read == BodyTooLarge ==> Answered(s, t, r, if c.egress then 400 else 413))
  {
  }

  lemma ValidationAnswers(c: Config, s: State, r: RequestId, valid: bool)
    requires HandlerAt(s.req, r, AtValidate)
    ensures HandlerEnabled(c, s, Validate(r, valid))
    ensures var t := DoHandler(c, s, Validate(r, valid));
            && t.log == s.log && t.chan == s.chan
            && if valid then GoesTo(s, t, r, AtDispatch) else Answered(s, t, r, 400)
  {
  }

  /**
   In every reachable state of an async server a valid delivery is answered 429
   if and only if the queue holds as many jobs as it can; otherwise its job goes
   to the end of the queue, and then it is answered 202.
   */
  lemma FullQueuesRefuse(c: Config, s: State, r: RequestId)
    requires Reachable(c, s) && c.async && HandlerAt(s.req, r, AtDispatch)
    ensures HandlerEnabled(c, s, Enqueue(r)) && |s.chan.queue| <= Capacity(c)
    ensures var t := DoHandler(c, s, Enqueue(r));
            var job := Job(r, s.req.handlers[r].delivery);
            && t.log == s.log
            && if |s.chan.queue| == Capacity(c) then Answered(s, t, r, 429) && t.chan == s.chan
               else
                 && GoesTo(s, t, r, AtAck)
                 && t.chan == s.chan.(queue := s.chan.queue + [job], accepted := s.chan.accepted + [job])
  {
    ReachableInv(c, s);
  }

  lemma QueuedIsAcknowledged(c: Config, s: State, r: RequestId)
    requires HandlerAt(s.req, r, AtAck)
    ensures HandlerEnabled(c, s, Acknowledge(r))
    ensures var t := DoHandler(c, s, Acknowledge(r));
            Answered(s, t, r, 202) && t.log == s.log && t.chan == s.chan
  {
  }

  /** Without a queue the component is called while the request waits, and the answer says how the call ended. */
  lemma InlineAnswers(c: Config, s: State, r: RequestId)
    requires !c.async
    ensures HandlerAt(s.req, r, AtDispatch) ==>
              var t := DoHandler(c, s, BeginInline(r, true));
              GoesTo(s, t, r, InHandler) && t.log == s.log + [HandleStart(r)]
    ensures HandlerAt(s.req, r, AtDispatch) && !c.egress ==>
              var t := DoHandler(c, s, BeginInline(r, false));
              Answered(s, t, r, 500) && t.log == s.log
    ensures HandlerAt(s.req, r, AtDispatch) && c.egress ==>
              var t := DoHandler(c, s, EmptyPush(r));
              Answered(s, t, r, 200) && t.log == s.log
    ensures HandlerAt(s.req, r, InHandler) ==>
              && Answered(s, DoHandler(c, s, EndInline(r, Handled)), r, 200)
              && Answered(s, DoHandler(c, s, EndInline(r, HandlerFailed)), r, 500)
              && (c.egress ==> Answered(s, DoHandler(c, s, EndInline(r, Throttled)), r, 429))
  {
  }

  // -------------------------------------------------- over whole runs

  /** A 404 or 501 for exactly the bindings without a webhook; 202 only with a queue, 200 only without. */
  ghost predicate StatusInv(c: Config, q: Requests) {
    forall r :: r in q.answers && r in q.arrived ==>
                  var status := q.answers[r];
                  && (status == (if c.egress then 501 else 404) <==> !ServesWebhook(c, q.arrived[r].binding))
                  && (status == 202 ==> c.async) && (status == 200 ==> !c.async)
  }

  /** As long as the worker has taken nothing, a 429 means that the queue is full. */
  ghost predicate BurstInv(c: Config, s: State) {
    c.async && s.chan.finished == [] && InHand(s.chan) == [] ==>
      forall r :: r in s.req.answers && s.req.answers[r] == 429 ==> |s.chan.queue| == c.Depth()
  }

  function Starts(log: seq<Event>): nat {
    if log == [] then 0 else Starts(log[..|log| - 1]) + if log[|log| - 1] == ConnectStart then 1 else 0
  }

  /** Without retries Connect is called once. */
  ghost predicate RetryInv(c: Config, s: State) {
    c.retryDisabled ==> s.retry == NoRetry && Starts(s.log) == if BeforeConnect(s.life.main) then 0 else 1
  }

  ghost predicate AnswerInv(c: Config, s: State) {
    && StatusInv(c, s.req) && BurstInv(c, s) && RetryInv(c, s)
    && (s.life.connectPending ==> ConnectIsPending(s.life.main))
  }

  lemma StartsSnoc(log: seq<Event>, e: Event)
    ensures Starts(log + [e]) == Starts(log) + if e == ConnectStart then 1 else 0
  {
    assert (log + [e])[..|log|] == log;
  }

  lemma HandlerStatus(c: Config, s: State, step: Step)
    requires StatusInv(c, s.req) && CoreInv(c, s) && IsHandlerStep(step) && HandlerEnabled(c, s, step)
    ensures StatusInv(c, DoHandler(c, s, step).req)
  {
    var t, r := DoHandler(c, s, step), step.request;
    HandlerFrame(c, s, step);
    forall x | x in t.req.answers && x in t.req.arrived
      ensures var status := t.req.answers[x];
              && (status == (if c.egress then 501 else 404) <==> !ServesWebhook(c, t.req.arrived[x].binding))
              && (status == 202 ==> c.async) && (status == 200 ==> !c.async)
    {
      if x != r {
        HandlerOthers(c, s, step, x);
      } else {
        OwnStatus(c, s, step);
      }
    }
  }

  lemma OwnStatus(c: Config, s: State, step: Step)
    requires CoreInv(c, s) && IsHandlerStep(step) && HandlerEnabled(c, s, step)
    requires step.request in DoHandler(c, s, step).req.answers && step.request in s.req.arrived
    ensures var r := step.request;
            var status := DoHandler(c, s, step).req.answers[r];
            && (status == (if c.egress then 501 else 404) <==> !ServesWebhook(c, s.req.arrived[r].binding))
            && (status == 202 ==> c.async) && (status == 200 ==> !c.async)
  {
    var r := step.request;
    assert r in s.req.handlers && r !in s.req.answers;
    assert s.req.handlers[r].delivery == s.req.arrived[r];
    if step.Route? {
      RouterAnswers(c, s, r);
      ModesMean(c, s.req.arrived[r].binding);
    } else {
      assert ServesWebhook(c, s.req.arrived[r].binding);
      if step.Acknowledge? {
        AckMeansQueue(c, s, r);
      }
      LaterStatus(c, s, step);
    }
  }

  lemma AckMeansQueue(c: Config, s: State, r: RequestId)
    requires QueueInv(c, s.chan) && RequestInv(s.req, s.chan.accepted) && HandlerAt(s.req, r, AtAck)
    ensures c.async
  {
    assert Taken202(s.req, r);
  }

  lemma LaterStatus(c: Config, s: State, step: Step)
    requires IsHandlerStep(step) && !step.Route? && HandlerEnabled(c, s, step) && step.request !in s.req.answers
    requires step.request in DoHandler(c, s, step).req.answers && (step.Acknowledge? ==> c.async)
    requires s.req.handlers[step.request].pc == InHandler ==> !c.async
    ensures var status := DoHandler(c, s, step).req.answers[step.request];
            status != 404 && status != 501 && (status == 202 ==> c.async) && (status == 200 ==> !c.async)
  {
  }

  lemma HandlerBurst(c: Config, s: State, step: Step)
    requires BurstInv(c, s) && QueueInv(c, s.chan) && IsHandlerStep(step) && HandlerEnabled(c, s, step)
    requires c.async ==> forall r :: r in s.req.handlers ==> s.req.handlers[r].pc != InHandler
    ensures BurstInv(c, DoHandler(c, s, step))
  {
    var t, r := DoHandler(c, s, step), step.request;
    HandlerFrame(c, s, step);
    if c.async && t.chan.finished == [] && InHand(t.chan) == [] {
      forall x | x in t.req.answers && t.req.answers[x] == 429 ensures |t.chan.queue| == c.Depth() {
        if x != r {
          HandlerOthers(c, s, step, x);
        }
        if !step.Enqueue? {
          assert t.chan == s.chan;
        }
      }
    }
  }

  lemma HandlerAnswers(c: Config, s: State, step: Step)
    requires Inv(c, s) && AnswerInv(c, s) && IsHandlerStep(step) && HandlerEnabled(c, s, step)
    ensures AnswerInv(c, DoHandler(c, s, step))
  {
    HandlerFrame(c, s, step);
    HandlerStatus(c, s, step);
    HandlerBurst(c, s, step);
    StartsSnoc(s.log, HandleStart(step.request));
  }

  /** What the main goroutine does to requests, retry and gate. */
  lemma MainFrame(c: Config, s: State, step: Step)
    requires IsMainStep(step) && MainEnabled(s, step)
    ensures var t := DoMain(c, s, step);
            && t.req.answers == s.req.answers && t.chan.queue == s.chan.queue && t.chan.finished == s.chan.finished
            && (t.req.arrived == s.req.arrived
                || (step.Arrive? && step.request !in s.req.arrived
                    && t.req.arrived == s.req.arrived[step.request := step.delivery]))
            && (c.retryDisabled && s.retry == NoRetry ==> t.retry == NoRetry)
  {
  }

  lemma MainGateFlag(c: Config, s: State, step: Step)
    requires IsMainStep(step) && MainEnabled(s, step) && (s.life.connectPending ==> ConnectIsPending(s.life.main))
    ensures var t := DoMain(c, s, step);
            t.life.connectPending ==> ConnectIsPending(t.life.main)
  {
  }

  lemma MainRetry(c: Config, s: State, step: Step)
    requires RetryInv(c, s) && IsMainStep(step) && MainEnabled(s, step)
    ensures RetryInv(c, DoMain(c, s, step))
  {
    MainFrame(c, s, step);
    MainLog(c, s, step);
    StartsSnoc(s.log, ConnectStart);
    StartsSnoc(s.log, ConnectEnd(true));
    StartsSnoc(s.log, ConnectEnd(false));
    MainPassesConnectOnce(c, s, step);
  }

  lemma MainPassesConnectOnce(c: Config, s: State, step: Step)
    requires IsMainStep(step) && MainEnabled(s, step)
    ensures var m, m' := s.life.main, DoMain(c, s, step).life.main;
            if step.CallConnect? then BeforeConnect(m) && !BeforeConnect(m') else BeforeConnect(m') <==>
                                                                                  BeforeConnect(m)
  {
  }

  lemma MainAnswers(c: Config, s: State, step: Step)
    requires Inv(c, s) && AnswerInv(c, s) && IsMainStep(step) && MainEnabled(s, step)
    ensures AnswerInv(c, DoMain(c, s, step))
  {
    MainFrame(c, s, step);
    MainGateFlag(c, s, step);
    MainRetry(c, s, step);
    MainInHand(c, s, step);
    MainStatus(c, s.req, DoMain(c, s, step).req);
  }

  lemma MainStatus(c: Config, q: Requests, q': Requests)
    requires StatusInv(c, q) && q'.answers == q.answers && q.answers.Keys <= q.arrived.Keys
    requires forall r :: r in q.arrived ==> r in q'.arrived && q'.arrived[r] == q.arrived[r]
    ensures StatusInv(c, q')
  {
  }

  lemma MainInHand(c: Config, s: State, step: Step)
    requires ShutdownInv(c, s) && IsMainStep(step) && MainEnabled(s, step)
    ensures InHand(DoMain(c, s, step).chan) == InHand(s.chan)
  {
  }

  lemma WorkerBurst(c: Config, s: State, step: Step)
    requires BurstInv(c, s) && IsWorkerStep(step) && WorkerEnabled(s, step)
    ensures BurstInv(c, DoWorker(s, step))
  {
  }

  lemma WorkerFrame(s: State, step: Step)
    requires IsWorkerStep(step) && WorkerEnabled(s, step)
    ensures var t := DoWorker(s, step);
            && t.req == s.req && t.life == s.life && t.retry == s.retry
            && (t.log == s.log || exists e :: t.log == s.log + [e] && e != ConnectStart)
  {
    if step.WorkerBegins? {
      var r := s.chan.worker.job.request;
      var e := if step.factoryOk then HandleStart(r) else Dropped(r);
      assert DoWorker(s, step).log == s.log + [e];
    }
  }

  lemma WorkerAnswers(c: Config, s: State, step: Step)
    requires AnswerInv(c, s) && IsWorkerStep(step) && WorkerEnabled(s, step)
    ensures AnswerInv(c, DoWorker(s, step))
  {
    WorkerBurst(c, s, step);
    WorkerFrame(s, step);
    var t := DoWorker(s, step);
    if t.log != s.log {
      var e :| t.log == s.log + [e] && e != ConnectStart;
      StartsSnoc(s.log, e);
    }
  }

  lemma LoopAnswers(c: Config, s: State, step: Step)
    requires Inv(c, s) && AnswerInv(c, s) && IsLoopStep(step) && LoopEnabled(s, step)
    ensures AnswerInv(c, DoLoop(s, step))
  {
    var t := DoLoop(s, step);
    if t.log != s.log {
      StartsSnoc(s.log, t.log[|s.log|]);
    }
  }

  lemma StepKeepsAnswers(c: Config, s: State, step: Step)
    requires Inv(c, s) && AnswerInv(c, s) && Enabled(c, s, step)
    ensures AnswerInv(c, Do(c, s, step))
  {
    if IsHandlerStep(step) {
      HandlerAnswers(c, s, step);
    } else if IsWorkerStep(step) {
      WorkerAnswers(c, s, step);
    } else if IsLoopStep(step) {
      LoopAnswers(c, s, step);
    } else {
      MainAnswers(c, s, step);
    }
  }

  lemma {:induction false} RunKeepsAnswers(c: Config, s: State, steps: seq<Step>)
    requires Inv(c, s) && AnswerInv(c, s) && Allowed(c, s, steps)
    ensures AnswerInv(c, After(c, s, steps))
    decreases |steps|
  {
    if steps != [] {
      StepKeepsInv(c, s, steps[0]);
      StepKeepsAnswers(c, s, steps[0]);
      RunKeepsAnswers(c, Do(c, s, steps[0]), steps[1..]);
    }
  }

  lemma ReachableAnswers(c: Config, s: State)
    requires Reachable(c, s)
    ensures AnswerInv(c, s)
  {
    var steps :| Allowed(c, Init(c), steps) && After(c, Init(c), steps) == s;
    InitInv(c);
    RunKeepsAnswers(c, Init(c), steps);
  }

  /**
   In every reachable state, over all answers: 404 or 501 for exactly the bindings without a webhook; 202 only
   with a queue, 200 only without.
   */
  lemma StatusesMean(c: Config, s: State, r: RequestId)
    requires Reachable(c, s) && r in s.req.answers
    ensures r in s.req.arrived
    ensures s.req.answers[r] == (if c.egress then 501 else 404) <==> !TakesWebhooks(c, s.req.arrived[r].binding)
    ensures s.req.answers[r] == 202 ==> c.async
    ensures s.req.answers[r] == 200 ==> !c.async
  {
    ReachableInv(c, s);
    ReachableAnswers(c, s);
    ModesMean(c, s.req.arrived[r].binding);
  }

  // -------------------------------------------------- bursts

  /** The deliveries refused for a full queue. */
  function Refused(s: State): set<RequestId> {
    set r | r in s.req.answers && s.req.answers[r] == 429
  }

  function Min(a: nat, b: nat): nat {
    if a <= b then a else b
  }

  /**
   In every run, as long as the worker has taken nothing: of the deliveries that
   came as far as the queue, as many as it holds are accepted and the rest are
   refused.
   */
  lemma BurstsFillTheQueue(c: Config, s: State)
    requires Reachable(c, s) && c.async && TakenJobs(s) == []
    ensures |s.chan.accepted| == Min(|s.chan.accepted| + |Refused(s)|, Capacity(c))
    ensures s.chan.queue == s.chan.accepted
  {
    ReachableInv(c, s);
    ReachableAnswers(c, s);
    assert s.chan.finished == [] && InHand(s.chan) == [];
    if Refused(s) != {} {
      var r :| r in Refused(s);
    }
  }

  /** One more delivery to a serving server, with no step of the worker. */
  lemma Deliver(c: Config, s: State, r: RequestId, d: Delivery) returns (t: State)
    requires Reachable(c, s) && c.async && ServesWebhook(c, d.binding)
    requires s.life == Life(Serving, false, true, false) && s.req.handlers == map[] && r !in s.req.arrived
    ensures Reachable(c, t) && t.life == s.life && t.polls == s.polls
    ensures |s.chan.queue| <= Capacity(c)
    ensures var full := |s.chan.queue| == Capacity(c);
            && t.req == Requests(map[], s.req.arrived[r := d], s.req.answers[r := if full then 429 else 202])
            && t.chan == if full then s.chan
                         else s.chan.(queue := s.chan.queue + [Job(r, d)], accepted := s.chan.accepted + [Job(r, d)])
  {
    var s1 := Dispatch(c, s, r, d);
    FullQueuesRefuse(c, s1, r);
    var s2 := DoHandler(c, s1, Enqueue(r));
    ReachHandler(c, s1, Enqueue(r), s2);
    assert s1.req.handlers - {r} == map[];
    if |s.chan.queue| == Capacity(c) {
      t := s2;
    } else {
      t := DoHandler(c, s2, Acknowledge(r));
      ReachHandler(c, s2, Acknowledge(r), t);
      QueuedIsAcknowledged(c, s2, r);
      assert s2.req.handlers - {r} == map[];
    }
  }

  /** One request in flight. */
  function InFlight(q: Requests, r: RequestId, d: Delivery, pc: HandlerPc): Requests {
    Requests(map[r := Handler(d, pc)], q.arrived[r := d], q.answers)
  }

  lemma AdvanceInFlight(q: Requests, r: RequestId, d: Delivery, pc: HandlerPc, pc': HandlerPc)
    ensures Advance(InFlight(q, r, d, pc), r, pc') == InFlight(q, r, d, pc')
  {
  }

  lemma Dispatch(c: Config, s: State, r: RequestId, d: Delivery) returns (t: State)
    requires Reachable(c, s) && c.async && ServesWebhook(c, d.binding)
    requires s.life == Life(Serving, false, true, false) && s.req.handlers == map[] && r !in s.req.arrived
    ensures Reachable(c, t) && t == s.(req := InFlight(s.req, r, d, AtDispatch))
  {
    var s0 := Admit(c, s, r, d);
    AdvanceInFlight(s.req, r, d, AtBody, AtValidate);
    AdvanceInFlight(s.req, r, d, AtValidate, AtDispatch);
    var s1 := s.(req := InFlight(s.req, r, d, AtValidate));
    ReachHandler(c, s0, ReadBody(r, BodyOk), s1);
    t := s.(req := InFlight(s.req, r, d, AtDispatch));
    ReachHandler(c, s1, Validate(r, true), t);
  }

  lemma Admit(c: Config, s: State, r: RequestId, d: Delivery) returns (t: State)
    requires Reachable(c, s) && ServesWebhook(c, d.binding)
    requires s.life == Life(Serving, false, true, false) && s.req.handlers == map[] && r !in s.req.arrived
    ensures Reachable(c, t) && t == s.(req := InFlight(s.req, r, d, AtBody))
  {
    AdvanceInFlight(s.req, r, d, AtRoute, AtGate);
    AdvanceInFlight(s.req, r, d, AtGate, AtBody);
    var s1 := s.(req := InFlight(s.req, r, d, AtRoute));
    ReachMain(c, s, Arrive(r, d), s1);
    var s2 := s.(req := InFlight(s.req, r, d, AtGate));
    ReachHandler(c, s1, Route(r), s2);
    t := s.(req := InFlight(s.req, r, d, AtBody));
    ReachHandler(c, s2, CheckGate(r), t);
  }

  /** The answers to a burst of n: 202 up to the capacity, 429 from there on. */
  ghost predicate BurstAnswers(c: Config, q: Requests, n: nat) {
    && (forall r: nat :: r in q.answers <==> r < n) && (forall r: nat :: r in q.arrived <==> r < n)
    && forall r: nat :: r < n ==> q.answers[r] == if r < Capacity(c) then 202 else 429
  }

  /** A serving server after a burst of n, with nothing taken by the worker. */
  ghost predicate AfterBurst(c: Config, s: State, n: nat) {
    && Reachable(c, s) && s.life == Life(Serving, false, true, false) && s.req.handlers == map[]
    && BurstAnswers(c, s.req, n) && |s.chan.queue| == Min(n, Capacity(c)) && TakenJobs(s) == []
  }

  lemma NextInBurst(c: Config, s: State, d: Delivery, n: nat) returns (t: State)
    requires AfterBurst(c, s, n) && c.async && ServesWebhook(c, d.binding)
    ensures AfterBurst(c, t, n + 1)
  {
    t := Deliver(c, s, n, d);
    BurstGrows(c, s.req, n, d);
    assert TakenJobs(t) == TakenJobs(s);
  }

  lemma BurstGrows(c: Config, q: Requests, n: nat, d: Delivery)
    requires BurstAnswers(c, q, n)
    ensures var status := if n < Capacity(c) then 202 else 429;
            BurstAnswers(c, Requests(map[], q.arrived[n := d], q.answers[n := status]), n + 1)
  {
  }

  /** A burst of any number of deliveries, with no step of the worker, is answered so. */
  lemma {:induction false} BurstIsReachable(c: Config, d: Delivery, n: nat) returns (s: State)
    requires c.async && TakesWebhooks(c, d.binding)
    ensures AfterBurst(c, s, n)
  {
    ModesMean(c, d.binding);
    if n == 0 {
      s := ServingIsReachable(c);
    } else {
      var s0 := BurstIsReachable(c, d, n - 1);
      s := NextInBurst(c, s0, d, n - 1);
    }
  }

  // -------------------------------------------------- calls that are due

  /** A run has called Sync for the binding. */
  ghost predicate Syncs(c: Config, s: State, b: string) {
    Reachable(c, s) && SyncStart(b) in s.log
  }

  /** Sync is called in some run if and only if the binding is polled. */
  lemma SyncsAreMadeWhereDue(c: Config, b: string)
    ensures (exists s :: Syncs(c, s, b)) <==> IsPolled(c, b)
  {
    ModesMean(c, b);
    if IsPolled(c, b) {
      var s := SyncIsReachable(c, b);
      assert Syncs(c, s, b);
    }
    forall s | Syncs(c, s, b) ensures IsPolled(c, b) {
      var k :| 0 <= k < |s.log| && s.log[k] == SyncStart(b);
      OnlyPollBindingsAreSynced(c, s, k);
    }
  }

  /** A server that has started its loops after Connect returned this. */
  lemma StartedIsReachable(c: Config, ok: bool) returns (s: State)
    ensures Reachable(c, s) && s.life.main == Serving && !s.life.cancelled
    ensures s.retry == if !ok && !c.retryDisabled then RetryWaiting else NoRetry
    ensures forall b :: b in c.bindings ==>
                          b in s.polls && s.polls[b] == if IsPolled(c, b) then PollIdle else NotPolling
    ensures s.log == [ConnectStart, ConnectEnd(ok)]
  {
    var s0 := ReturnedIsReachable(c, ok);
    s := LoopsAreReachable(c, s0, ok);
  }

  lemma ReturnedIsReachable(c: Config, ok: bool) returns (s: State)
    ensures Reachable(c, s) && s.life.main == Connected(ok) && !s.life.cancelled
    ensures s.log == [ConnectStart, ConnectEnd(ok)]
  {
    var s0 := SpawnedIsReachable(c);
    var s1 := DoMain(c, s0, CallConnect);
    ReachMain(c, s0, CallConnect, s1);
    s := DoMain(c, s1, ConnectReturns(ok));
    ReachMain(c, s1, ConnectReturns(ok), s);
  }

  lemma LoopsAreReachable(c: Config, s: State, ok: bool) returns (t: State)
    requires Reachable(c, s) && s.life.main == Connected(ok) && !s.life.cancelled
    ensures Reachable(c, t) && t.life.main == Serving && !t.life.cancelled && t.log == s.log
    ensures t.retry == if !ok && !c.retryDisabled then RetryWaiting else NoRetry
    ensures forall b :: b in c.bindings ==>
                          b in t.polls && t.polls[b] == if IsPolled(c, b) then PollIdle else NotPolling
  {
    var s1 := DoMain(c, s, OpenGate);
    ReachMain(c, s, OpenGate, s1);
    t := LoopsStart(c, s1, ok);
  }

  /**
   Once the gate is open, the retry starts exactly after a failed Connect, and the poll loops of the polled
   bindings.
   */
  lemma LoopsStart(c: Config, s: State, ok: bool) returns (t: State)
    requires Reachable(c, s) && s.life.main == GateOpen(ok) && !s.life.cancelled
    ensures Reachable(c, t) && t.life.main == Serving && !t.life.cancelled && t.log == s.log
    ensures t.retry == if !ok && !c.retryDisabled then RetryWaiting else NoRetry
    ensures forall b :: b in c.bindings ==>
                          b in t.polls && t.polls[b] == if IsPolled(c, b) then PollIdle else NotPolling
  {
    t := DoMain(c, s, StartLoops);
    ReachMain(c, s, StartLoops, t);
  }

  lemma SpawnedIsReachable(c: Config) returns (s: State)
    ensures Reachable(c, s) && s.life.main == Listening && !s.life.cancelled && s.log == []
  {
    InitIsReachable(c);
    var s0 := Init(c);
    var s1 := DoMain(c, s0, SetGate);
    ReachMain(c, s0, SetGate, s1);
    var s2 := DoMain(c, s1, StartWorker);
    ReachMain(c, s1, StartWorker, s2);
    s := DoMain(c, s2, SpawnListener);
    ReachMain(c, s2, SpawnListener, s);
  }

  /** How often an event stands in the log. */
  function Count(log: seq<Event>, e: Event): nat {
    if log == [] then 0 else Count(log[..|log| - 1], e) + if log[|log| - 1] == e then 1 else 0
  }

  lemma CountSnoc(log: seq<Event>, x: Event, e: Event)
    ensures Count(log + [x], e) == Count(log, e) + if x == e then 1 else 0
  {
    assert (log + [x])[..|log|] == log;
  }

  lemma {:induction false} CountedIsThere(log: seq<Event>, e: Event)
    ensures e in log <==> Count(log, e) > 0
  {
    if log != [] {
      CountedIsThere(log[..|log| - 1], e);
      assert log == log[..|log| - 1] + [log[|log| - 1]];
    }
  }

  /** A poll loop is idle in a serving server after this many Sync calls. */
  ghost predicate HasSynced(c: Config, s: State, b: string, n: nat) {
    && Reachable(c, s) && s.life.main == Serving && !s.life.cancelled
    && PollAt(s, b, PollIdle) && Count(s.log, SyncStart(b)) == n
  }

  /** A polled binding is synced again and again. */
  lemma {:induction false} SyncsGoOn(c: Config, b: string, n: nat) returns (s: State)
    requires IsPolled(c, b)
    ensures HasSynced(c, s, b, n)
  {
    if n == 0 {
      s := StartedIsReachable(c, true);
      NoSyncYet(b);
    } else {
      var s0 := SyncsGoOn(c, b, n - 1);
      s := SyncOnceMore(c, s0, b, n - 1);
    }
  }

  lemma NoSyncYet(b: string)
    ensures Count([ConnectStart, ConnectEnd(true)], SyncStart(b)) == 0
  {
    CountedIsThere([ConnectStart, ConnectEnd(true)], SyncStart(b));
  }

  lemma SyncOnceMore(c: Config, s: State, b: string, n: nat) returns (t: State)
    requires HasSynced(c, s, b, n)
    ensures HasSynced(c, t, b, n + 1)
  {
    var s1 := DoLoop(s, PollCheck(b));
    ReachLoop(c, s, PollCheck(b), s1);
    var s2 := DoLoop(s1, PollSyncs(b));
    ReachLoop(c, s1, PollSyncs(b), s2);
    CountSnoc(s.log, SyncStart(b), SyncStart(b));
    t := DoLoop(s2, PollSyncReturns(b));
    ReachLoop(c, s2, PollSyncReturns(b), t);
  }

  /** A poll whose writer cannot be made goes back to waiting. */
  lemma FailedPollsGoOn(c: Config, s: State, b: string)
    requires PollAt(s, b, PollReady)
    ensures LoopEnabled(s, PollFactoryFails(b)) && DoLoop(s, PollFactoryFails(b)) == s.(polls := s.polls[b := PollIdle])
  {
  }

  /** After cancellation an idle poll loop and a waiting retry can only end. */
  lemma CancelledLoopsEnd(s: State, b: string)
    requires s.life.cancelled
    ensures PollAt(s, b, PollIdle) ==>
              && !LoopEnabled(s, PollCheck(b)) && LoopEnabled(s, PollExits(b))
              && PollAt(DoLoop(s, PollExits(b)), b, PollDone)
    ensures s.retry == RetryWaiting ==> LoopEnabled(s, RetryStops) && DoLoop(s, RetryStops).retry == RetryDone
  {
  }

  lemma SyncIsReachable(c: Config, b: string) returns (s: State)
    requires IsPolled(c, b)
    ensures Reachable(c, s) && SyncStart(b) in s.log
  {
    s := SyncsGoOn(c, b, 1);
    CountedIsThere(s.log, SyncStart(b));
  }

  /** A retry is waiting after this many Connect calls, none of which succeeded. */
  ghost predicate HasRetried(c: Config, s: State, n: nat) {
    Reachable(c, s) && s.retry == RetryWaiting && Starts(s.log) == n
  }

  lemma {:induction false} RetriesGoOn(c: Config, n: nat) returns (s: State)
    requires !c.retryDisabled && n > 0
    ensures HasRetried(c, s, n)
  {
    if n == 1 {
      s := StartedIsReachable(c, false);
      OneStart();
    } else {
      var s0 := RetriesGoOn(c, n - 1);
      var s1 := DoLoop(s0, RetryFires);
      ReachLoop(c, s0, RetryFires, s1);
      StartsSnoc(s0.log, ConnectStart);
      s := DoLoop(s1, RetryReturns(false));
      ReachLoop(c, s1, RetryReturns(false), s);
      StartsSnoc(s1.log, ConnectEnd(false));
    }
  }

  lemma OneStart()
    ensures Starts([ConnectStart, ConnectEnd(false)]) == 1
  {
    StartsSnoc([], ConnectStart);
    StartsSnoc([ConnectStart], ConnectEnd(false));
    assert [] + [ConnectStart] == [ConnectStart];
    assert [ConnectStart] + [ConnectEnd(false)] == [ConnectStart, ConnectEnd(false)];
  }

  /** A run has called Connect at least this often. */
  ghost predicate Connects(c: Config, s: State, n: nat) {
    Reachable(c, s) && Starts(s.log) >= n
  }

  /** Connect is called any number of times, in some run, if and only if retries are not disabled; once in any case. */
  lemma RetriesAreMadeWhereDue(c: Config, n: nat)
    ensures (exists s :: Connects(c, s, n)) <==> n <= 1 || !c.retryDisabled
  {
    if n <= 1 {
      var s := StartedIsReachable(c, false);
      OneStart();
      assert Connects(c, s, n);
    } else if !c.retryDisabled {
      var s := RetriesGoOn(c, n);
      assert Connects(c, s, n);
    }
    forall s | Connects(c, s, n) ensures n <= 1 || !c.retryDisabled {
      ReachableAnswers(c, s);
    }
  }
}
