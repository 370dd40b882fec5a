/**
 The connector server as a concurrent protocol: the start-up order of
 `ListenAndServe`, the `connectPending` gate, webhook handlers, the bounded
 async queue with its single worker, the poll loops, the background Connect
 retry, and the ordered shutdown.

 A run interleaves the steps of all these goroutines in any order. The egress
 server is the instance whose configuration says so (`IsEgress`): no queue, no
 poll loops, its push lanes as bindings. It answers 501 for a lane it does not
 serve and 400 for any body it cannot decode, answers an empty push without
 calling the component, and may answer a push it made with 429.
 */
module ServerProtocol {

  type RequestId = nat

  datatype Mode = PollMode | WebhookMode | BothModes {
    predicate PollEnabled() { this != WebhookMode }
    predicate WebhookEnabled() { this != PollMode }
  }

  const DEFAULT_QUEUE_DEPTH: nat := 16

  /** A validated configuration: bindings are keyed by their unique id. */
  datatype Config = Config(bindings: map<string, Mode>, async: bool, queueDepth: int, retryDisabled: bool,
                           egress: bool) {
    function Depth(): nat {
      if queueDepth <= 0 then DEFAULT_QUEUE_DEPTH else queueDepth
    }
  }

  /** The configuration of an egress server: every binding is a push lane. */
  predicate IsEgress(c: Config) {
    c.egress && !c.async && forall b :: b in c.bindings ==> c.bindings[b] == WebhookMode
  }

  datatype Delivery = Delivery(binding: string, payload: string)
  datatype Job = Job(request: RequestId, delivery: Delivery)

  datatype Outcome = Clean | DrainTimedOut | ShutdownFailed | ServeFailed

  /** Where the goroutine running `ListenAndServe` is. */
  datatype MainPc =
    | Boot | Gated | WorkerStarted | Listening | Connecting | Connected(ok: bool) | GateOpen(ok: bool)
    | Serving | Stopping | Failing | ShuttingDown | HandlersGone | Draining | Returned(outcome: Outcome)

  datatype HandlerPc = AtRoute | AtGate | AtBody | AtValidate | AtDispatch | AtAck | InHandler
  datatype Handler = Handler(delivery: Delivery, pc: HandlerPc)
  datatype WorkerPc = NoWorker | Idle | Taken(job: Job) | Handling(job: Job) | Done
  datatype PollPc = NotPolling | PollIdle | PollReady | InSync | PollDone
  datatype RetryPc = NoRetry | RetryWaiting | RetryConnecting | RetryDone

  /** Calls into the component, and queued deliveries dropped for want of a writer, in the order they happen. */
  datatype Event =
    | ConnectStart | ConnectEnd(ok: bool)
    | HandleStart(request: RequestId) | Dropped(request: RequestId)
    | SyncStart(binding: string)

  /** `ListenAndServe`, its run context, the gate and the listener. */
  datatype Life = Life(main: MainPc, connectPending: bool, accepting: bool, cancelled: bool)

  /** Requests in flight, everything that ever arrived, and the status codes sent. */
  datatype Requests = Requests(handlers: map<RequestId, Handler>, arrived: map<RequestId, Delivery>,
                               answers: map<RequestId, nat>)

  /** The webhook queue and its worker, with the jobs accepted and the jobs the worker is done with. */
  datatype Channel = Channel(queue: seq<Job>, closed: bool, panicked: bool, accepted: seq<Job>,
                             finished: seq<Job>, worker: WorkerPc)

  datatype State = State(life: Life, req: Requests, chan: Channel, polls: map<string, PollPc>, retry: RetryPc,
                         log: seq<Event>)

  /** How an inline handler call ends. */
  datatype Ended = Handled | Throttled | HandlerFailed

  datatype BodyRead = BodyOk | BodyTooLarge | BodyFailed

  datatype Step =
    | SetGate | StartWorker | SpawnListener | CallConnect | ConnectReturns(ok: bool) | OpenGate | StartLoops
    | CancelContext | StopSignal | ServeError | FailReturn | WaitPolls | ShutdownOk | ShutdownError
    | CloseQueue | DrainDone | DrainTimeout
    | Arrive(request: RequestId, delivery: Delivery)
    | Route(request: RequestId) | CheckGate(request: RequestId) | ReadBody(request: RequestId, read: BodyRead)
    | Validate(request: RequestId, valid: bool) | Enqueue(request: RequestId) | Acknowledge(request: RequestId)
    | EmptyPush(request: RequestId) | BeginInline(request: RequestId, factoryOk: bool)
    | EndInline(request: RequestId, ended: Ended)
    | WorkerTakes | WorkerBegins(factoryOk: bool) | WorkerEnds | WorkerExits
    | PollCheck(binding: string) | PollFactoryFails(binding: string) | PollSyncs(binding: string)
    | PollSyncReturns(binding: string) | PollExits(binding: string)
    | RetryFires | RetryReturns(ok: bool) | RetryStops

  function Init(c: Config): State {
    State(Life(Boot, false, false, false), Requests(map[], map[], map[]),
          Channel([], false, false, [], [], NoWorker), map b | b in c.bindings :: NotPolling, NoRetry, [])
  }

  predicate HandlerAt(q: Requests, r: RequestId, pc: HandlerPc) {
    r in q.handlers && q.handlers[r].pc == pc
  }

  predicate PollAt(s: State, b: string, pc: PollPc) {
    b in s.polls && s.polls[b] == pc
  }

  predicate PollsStopped(s: State) {
    forall b :: b in s.polls ==> s.polls[b] == NotPolling || s.polls[b] == PollDone
  }

  predicate ServesWebhook(c: Config, b: string) {
    b in c.bindings && c.bindings[b].WebhookEnabled()
  }

  // ------------------------------------------------------------ the main goroutine

  predicate IsMainStep(step: Step) {
    !IsHandlerStep(step) && !IsWorkerStep(step) && !IsLoopStep(step)
  }

  predicate MainEnabled(s: State, step: Step)
    requires IsMainStep(step)
  {
    var main := s.life.main;
    match step
    case SetGate => main == Boot
    case StartWorker => main == Gated
    case SpawnListener => main == WorkerStarted
    case CallConnect => main == Listening
    case ConnectReturns(_) => main == Connecting
    case OpenGate => main.Connected?
    case StartLoops => main.GateOpen?
    case CancelContext => true
    case StopSignal => main == Serving
    case ServeError => main == Serving
    case FailReturn => main == Failing && PollsStopped(s)
    case WaitPolls => main == Stopping && PollsStopped(s)
    case ShutdownOk => main == ShuttingDown && s.req.handlers == map[]
    case ShutdownError => main == ShuttingDown
    case CloseQueue => main == HandlersGone
    case DrainDone => main == Draining && s.chan.worker == Done
    case DrainTimeout => main == Draining
    case Arrive(r, _) => s.life.accepting && r !in s.req.arrived
  }

  function DoMain(c: Config, s: State, step: Step): State
    requires IsMainStep(step) && MainEnabled(s, step)
  {
    var life := s.life;
    match step
    case SetGate => s.(life := life.(main := Gated, connectPending := true))
    case StartWorker =>
      s.(life := life.(main := WorkerStarted), chan := s.chan.(worker := if c.async then Idle else NoWorker))
    case SpawnListener => s.(life := life.(main := Listening, accepting := true))
    case CallConnect => s.(life := life.(main := Connecting), log := s.log + [ConnectStart])
    case ConnectReturns(ok) => s.(life := life.(main := Connected(ok)), log := s.log + [ConnectEnd(ok)])
    case OpenGate => s.(life := life.(main := GateOpen(life.main.ok), connectPending := false))
    case StartLoops =>
      s.(life := life.(main := Serving),
      retry := if !life.main.ok && !c.retryDisabled then RetryWaiting else NoRetry,
      polls := map b | b in c.bindings :: if c.bindings[b].PollEnabled() then PollIdle else NotPolling)
    case CancelContext => s.(life := life.(cancelled := true))
    case StopSignal => s.(life := life.(main := Stopping, cancelled := true))
    case ServeError => s.(life := life.(main := Failing, cancelled := true))
    case FailReturn => s.(life := life.(main := Returned(ServeFailed)))
    case WaitPolls => s.(life := life.(main := ShuttingDown))
    case ShutdownOk => s.(life := life.(main := HandlersGone, accepting := false))
    case ShutdownError => s.(life := life.(main := Returned(ShutdownFailed)))
    case CloseQueue =>
      if c.async then s.(life := life.(main := Draining), chan := s.chan.(closed := true))
      else s.(life := life.(main := Returned(Clean)))
    case DrainDone => s.(life := life.(main := Returned(Clean)))
    case DrainTimeout => s.(life := life.(main := Returned(DrainTimedOut)))
    case Arrive(r, d) =>
      s.(req := s.req.(handlers := s.req.handlers[r := Handler(d, AtRoute)], arrived := s.req.arrived[r := d]))
  }

  // ------------------------------------------------------------ request handlers

  predicate IsHandlerStep(step: Step) {
    || step.Route? || step.CheckGate? || step.ReadBody? || step.Validate? || step.Enqueue?
    || step.Acknowledge? || step.EmptyPush? || step.BeginInline? || step.EndInline?
  }

  predicate HandlerEnabled(c: Config, s: State, step: Step)
    requires IsHandlerStep(step)
  {
    match step
    case Route(r) => HandlerAt(s.req, r, AtRoute)
    case CheckGate(r) => HandlerAt(s.req, r, AtGate)
    case ReadBody(r, _) => HandlerAt(s.req, r, AtBody)
    case Validate(r, _) => HandlerAt(s.req, r, AtValidate)
    case Enqueue(r) => c.async && HandlerAt(s.req, r, AtDispatch)
    case EmptyPush(r) => !c.async && c.egress && HandlerAt(s.req, r, AtDispatch)
    case BeginInline(r, factoryOk) => !c.async && (c.egress ==> factoryOk) && HandlerAt(s.req, r, AtDispatch)
    case Acknowledge(r) => HandlerAt(s.req, r, AtAck)
    case EndInline(r, ended) => HandlerAt(s.req, r, InHandler) && (ended == Throttled ==> c.egress)
  }

  /** The handler answers and is gone. */
  function Answer(q: Requests, r: RequestId, status: nat): Requests {
    q.(handlers := q.handlers - {r}, answers := q.answers[r := status])
  }

  function Advance(q: Requests, r: RequestId, pc: HandlerPc): Requests
    requires r in q.handlers
  {
    q.(handlers := q.handlers[r := q.handlers[r].(pc := pc)])
  }

  function DoHandler(c: Config, s: State, step: Step): State
    requires IsHandlerStep(step) && HandlerEnabled(c, s, step)
  {
    var r := step.request;
    match step
    case Route(_) =>
      s.(req := if ServesWebhook(c, s.req.handlers[r].delivery.binding) then Advance(s.req, r, AtGate)
      else Answer(s.req, r, if c.egress then 501 else 404))
    case CheckGate(_) =>
      s.(req := if s.life.connectPending then Answer(s.req, r, 503) else Advance(s.req, r, AtBody))
    case ReadBody(_, read) =>
      s.(req := match read
      case BodyOk => Advance(s.req, r, AtValidate)
      case BodyTooLarge => Answer(s.req, r, if c.egress then 400 else 413)
      case BodyFailed => Answer(s.req, r, 400))
    case Validate(_, valid) =>
      s.(req := if valid then Advance(s.req, r, AtDispatch) else Answer(s.req, r, 400))
    case Enqueue(_) =>
      var job := Job(r, s.req.handlers[r].delivery);
      if s.chan.closed then s.(chan := s.chan.(panicked := true))
      else if |s.chan.queue| < c.Depth() then
        s.(req := Advance(s.req, r, AtAck),
        chan := s.chan.(queue := s.chan.queue + [job], accepted := s.chan.accepted + [job]))
      else s.(req := Answer(s.req, r, 429))
    case EmptyPush(_) => s.(req := Answer(s.req, r, 200))
    case BeginInline(_, factoryOk) =>
      if factoryOk then s.(req := Advance(s.req, r, InHandler), log := s.log + [HandleStart(r)])
      else s.(req := Answer(s.req, r, 500))
    case Acknowledge(_) => s.(req := Answer(s.req, r, 202))
    case EndInline(_, ended) =>
      s.(req := Answer(s.req, r, match ended case Handled => 200 case Throttled => 429 case HandlerFailed => 500))
  }

  // ------------------------------------------------------------ the queue worker

  predicate IsWorkerStep(step: Step) {
    step.WorkerTakes? || step.WorkerBegins? || step.WorkerEnds? || step.WorkerExits?
  }

  predicate WorkerEnabled(s: State, step: Step)
    requires IsWorkerStep(step)
  {
    var w := s.chan.worker;
    match step
    case WorkerTakes => w == Idle && s.chan.queue != []
    case WorkerBegins(_) => w.Taken?
    case WorkerEnds => w.Handling?
    case WorkerExits => w == Idle && s.chan.queue == [] && s.chan.closed
  }

  function DoWorker(s: State, step: Step): State
    requires IsWorkerStep(step) && WorkerEnabled(s, step)
  {
    var ch := s.chan;
    match step
    case WorkerTakes => s.(chan := ch.(worker := Taken(ch.queue[0]), queue := ch.queue[1..]))
    case WorkerBegins(factoryOk) =>
      if factoryOk then s.(chan := ch.(worker := Handling(ch.worker.job)), log := s.log
                        + [HandleStart(ch.worker.job.request)])
      else
        s.(chan := ch.(worker := Idle, finished := ch.finished + [ch.worker.job]),
        log := s.log + [Dropped(ch.worker.job.request)])
    case WorkerEnds => s.(chan := ch.(worker := Idle, finished := ch.finished + [ch.worker.job]))
    case WorkerExits => s.(chan := ch.(worker := Done))
  }

  // ------------------------------------------------------------ poll loops and the Connect retry

  predicate IsLoopStep(step: Step) {
    || step.PollCheck? || step.PollFactoryFails? || step.PollSyncs? || step.PollSyncReturns? || step.PollExits?
    || step.RetryFires? || step.RetryReturns? || step.RetryStops?
  }

  predicate LoopEnabled(s: State, step: Step)
    requires IsLoopStep(step)
  {
    match step
    case PollCheck(b) => PollAt(s, b, PollIdle) && !s.life.cancelled
    case PollFactoryFails(b) => PollAt(s, b, PollReady)
    case PollSyncs(b) => PollAt(s, b, PollReady)
    case PollSyncReturns(b) => PollAt(s, b, InSync)
    case PollExits(b) => PollAt(s, b, PollIdle) && s.life.cancelled
    case RetryFires => s.retry == RetryWaiting
    case RetryReturns(_) => s.retry == RetryConnecting
    case RetryStops => s.retry == RetryWaiting && s.life.cancelled
  }

  function DoLoop(s: State, step: Step): State
    requires IsLoopStep(step) && LoopEnabled(s, step)
  {
    match step
    case PollCheck(b) => s.(polls := s.polls[b := PollReady])
    case PollFactoryFails(b) => s.(polls := s.polls[b := PollIdle])
    case PollSyncs(b) => s.(polls := s.polls[b := InSync], log := s.log + [SyncStart(b)])
    case PollSyncReturns(b) => s.(polls := s.polls[b := PollIdle])
    case PollExits(b) => s.(polls := s.polls[b := PollDone])
    case RetryFires => s.(retry := RetryConnecting, log := s.log + [ConnectStart])
    case RetryReturns(ok) => s.(retry := if ok then RetryDone else RetryWaiting, log := s.log + [ConnectEnd(ok)])
    case RetryStops => s.(retry := RetryDone)
  }

  predicate Enabled(c: Config, s: State, step: Step) {
    if IsHandlerStep(step) then HandlerEnabled(c, s, step)
    else if IsWorkerStep(step) then WorkerEnabled(s, step)
    else if IsLoopStep(step) then LoopEnabled(s, step)
    else MainEnabled(s, step)
  }

  function Do(c: Config, s: State, step: Step): State
    requires Enabled(c, s, step)
  {
    if IsHandlerStep(step) then DoHandler(c, s, step)
    else if IsWorkerStep(step) then DoWorker(s, step)
    else if IsLoopStep(step) then DoLoop(s, step)
    else DoMain(c, s, step)
  }

  /** A run from s: each step is enabled where the steps before it lead. */
  predicate Allowed(c: Config, s: State, steps: seq<Step>)
    decreases |steps|
  {
    steps == [] || (Enabled(c, s, steps[0]) && Allowed(c, Do(c, s, steps[0]), steps[1..]))
  }

  /** Where a run leads. */
  function After(c: Config, s: State, steps: seq<Step>): State
    requires Allowed(c, s, steps)
    decreases |steps|
  {
    if steps == [] then s else After(c, Do(c, s, steps[0]), steps[1..])
  }

  /** The states some run from start-up passes through. */
  ghost predicate Reachable(c: Config, s: State) {
    exists steps :: Allowed(c, Init(c), steps) && After(c, Init(c), steps) == s
  }

  // ------------------------------------------------------------ invariants

  function InHand(ch: Channel): seq<Job> {
    if ch.worker.Taken? || ch.worker.Handling? then [ch.worker.job] else []
  }

  /** Every accepted delivery is, in order, done with, in hand or queued. */
  ghost predicate QueueInv(c: Config, ch: Channel) {
    && ch.finished + InHand(ch) + ch.queue == ch.accepted
    && |ch.queue| <= c.Depth()
    && (ch.worker == Done ==> ch.queue == [] && ch.closed)
    && !ch.panicked
    && (!c.async ==> ch.accepted == [] && ch.worker == NoWorker)
  }

  predicate IsDown(m: MainPc) {
    m == HandlersGone || m == Draining || m == Returned(Clean) || m == Returned(DrainTimedOut)
  }

  /** The queue is closed only after the last handler has gone; polls end before Shutdown. */
  ghost predicate ShutdownInv(c: Config, s: State) {
    var m := s.life.main;
    && (IsDown(m) ==> s.req.handlers == map[])
    && (IsDown(m) ==> !s.life.accepting)
    && (IsDown(m) || m == ShuttingDown || m.Returned? ==> PollsStopped(s))
    && (m == Stopping || m == Failing ==> s.life.cancelled)
    && (s.chan.closed ==> IsDown(m) && m != HandlersGone)
    && (c.async && (m == Draining || m == Returned(Clean)) ==> s.chan.closed)
    && (c.async && m == Returned(Clean) ==> s.chan.worker == Done)
    && (s.chan.worker != NoWorker <==> c.async && m != Boot && m != Gated)
    && (s.chan.closed ==> c.async)
  }

  /** The request's job is queued: it is answered 202, or about to be. */
  predicate Taken202(q: Requests, r: RequestId) {
    (r in q.answers && q.answers[r] == 202) || HandlerAt(q, r, AtAck)
  }

  /** Requests: one answer each, 202 exactly for the accepted ones, each accepted once. */
  ghost predicate RequestInv(q: Requests, accepted: seq<Job>) {
    && q.handlers.Keys !! q.answers.Keys
    && q.handlers.Keys + q.answers.Keys == q.arrived.Keys
    && (forall r :: r in q.handlers ==> q.handlers[r].delivery == q.arrived[r])
    && (forall i :: 0 <= i < |accepted| ==> AcceptedAs(q, accepted[i]))
    && (forall r :: Taken202(q, r) ==> exists i :: 0 <= i < |accepted| && accepted[i].request == r)
    && (forall i, j :: 0 <= i < j < |accepted| ==> accepted[i].request != accepted[j].request)
  }

  ghost predicate AcceptedAs(q: Requests, job: Job) {
    && Taken202(q, job.request)
    && job.request in q.arrived && q.arrived[job.request] == job.delivery
  }

  /** The requests that may appear in a call of the component's webhook handler. */
  ghost predicate HandedOver(c: Config, s: State, r: RequestId) {
    if c.async then
      || (s.chan.worker.Handling? && s.chan.worker.job.request == r)
      || exists i :: 0 <= i < |s.chan.finished| && s.chan.finished[i].request == r
    else
      || HandlerAt(s.req, r, InHandler)
      || (r in s.req.answers
          && (s.req.answers[r] == 200 || s.req.answers[r] == 500 || (s.req.answers[r] == 429 && c.egress)))
  }

  /** The component is handed only the requests it may be handed, and each at most once. */
  ghost predicate StartInv(c: Config, s: State) {
    && (forall i :: 0 <= i < |s.log| && s.log[i].HandleStart? ==> HandedOver(c, s, s.log[i].request))
    && (forall i, j :: 0 <= i < j < |s.log| && s.log[i].HandleStart? && s.log[j].HandleStart? ==>
                         s.log[i].request != s.log[j].request)
    && (c.async ==> forall r :: r in s.req.handlers ==> s.req.handlers[r].pc != InHandler)
  }

  /** The queued deliveries the log accounts for, in order: handed to the component, or dropped. */
  function Settled(log: seq<Event>): seq<RequestId> {
    if log == [] then []
    else
      var e := log[|log| - 1];
      Settled(log[..|log| - 1]) + if e.HandleStart? || e.Dropped? then [e.request] else []
  }

  function RequestsOf(jobs: seq<Job>): seq<RequestId> {
    seq(|jobs|, i requires 0 <= i < |jobs| => jobs[i].request)
  }

  /** The jobs that reached the component or were dropped: those done with, and the one being handled. */
  function Begun(ch: Channel): seq<Job> {
    ch.finished + if ch.worker.Handling? then [ch.worker.job] else []
  }

  /** In async mode the log accounts for exactly the begun jobs, in queue order; inline requests are never dropped. */
  ghost predicate OrderInv(c: Config, ch: Channel, log: seq<Event>) {
    if c.async then Settled(log) == RequestsOf(Begun(ch)) else forall i :: 0 <= i < |log| ==> !log[i].Dropped?
  }

  /** Poll loops and Sync calls belong to bindings that poll. */
  ghost predicate PollInv(c: Config, polls: map<string, PollPc>, log: seq<Event>) {
    && (forall b :: b in polls && polls[b] != NotPolling ==> Polls(c, b))
    && (forall i :: 0 <= i < |log| && log[i].SyncStart? ==> Polls(c, log[i].binding))
  }

  predicate Polls(c: Config, b: string) {
    b in c.bindings && c.bindings[b].PollEnabled()
  }

  datatype Phase = Never | Open | Failed | Good | Broken

  function NextPhase(p: Phase, e: Event): Phase {
    match e
    case ConnectStart => if p == Never || p == Failed then Open else Broken
    case ConnectEnd(ok) => if p != Open then Broken else if ok then Good else Failed
    case _ => p
  }

  /** What the Connect calls in a log have come to; Broken once two overlap or one follows a success. */
  function ConnectPhase(log: seq<Event>): Phase {
    if log == [] then Never else NextPhase(ConnectPhase(log[..|log| - 1]), log[|log| - 1])
  }

  predicate BeforeConnect(m: MainPc) {
    m == Boot || m == Gated || m == WorkerStarted || m == Listening
  }

  predicate AfterLoops(m: MainPc) {
    !BeforeConnect(m) && m != Connecting && !m.Connected? && !m.GateOpen?
  }

  ghost predicate ConnectInv(m: MainPc, retry: RetryPc, phase: Phase) {
    && (BeforeConnect(m) ==> phase == Never)
    && (m == Connecting || retry == RetryConnecting ==> phase == Open)
    && (m.Connected? || m.GateOpen? ==> phase == if m.ok then Good else Failed)
    && (AfterLoops(m) && retry != RetryConnecting ==> phase == Good || phase == Failed)
    && (retry == RetryWaiting ==> phase == Failed)
    && (!AfterLoops(m) ==> retry == NoRetry)
  }

  predicate PastGate(pc: HandlerPc) {
    pc == AtBody || pc == AtValidate || pc == AtDispatch || pc == AtAck || pc == InHandler
  }

  predicate ConnectReturned(log: seq<Event>) {
    exists k :: 0 <= k < |log| && log[k].ConnectEnd?
  }

  /** Handlers and polls get past the gate only after the first Connect has returned. */
  ghost predicate GateInv(s: State) {
    var m := s.life.main;
    && (m == Boot || s.life.connectPending || m.GateOpen? || AfterLoops(m))
    && (m == Boot ==> s.req.handlers == map[] && !s.life.accepting)
    && (ConnectReturned(s.log) || BeforeConnect(m) || m == Connecting)
    && (forall r :: r in s.req.handlers && PastGate(s.req.handlers[r].pc) ==> ConnectReturned(s.log))
    && (s.chan.accepted != [] ==> ConnectReturned(s.log))
    && (forall b :: b in s.polls && s.polls[b] != NotPolling ==> AfterLoops(m))
    && CallsFollowConnect(s.log)
  }

  /** No webhook handler and no Sync is called before the initial Connect attempt has returned. */
  ghost predicate CallsFollowConnect(log: seq<Event>) {
    forall i :: 0 <= i < |log| && (log[i].HandleStart? || log[i].SyncStart?) ==> ConnectReturned(log[..i])
  }

  /** Only requests for a webhook binding get past the router. */
  ghost predicate RouteInv(c: Config, q: Requests, accepted: seq<Job>) {
    && (forall r :: r in q.handlers && q.handlers[r].pc != AtRoute ==> ServesWebhook(c, q.handlers[r].delivery.binding))
    && (forall i :: 0 <= i < |accepted| ==> ServesWebhook(c, accepted[i].delivery.binding))
  }

  ghost predicate Inv(c: Config, s: State) {
    CoreInv(c, s) && OrderInv(c, s.chan, s.log) && PollInv(c, s.polls, s.log)
  }

  ghost predicate CoreInv(c: Config, s: State) {
    && QueueInv(c, s.chan) && ShutdownInv(c, s) && RequestInv(s.req, s.chan.accepted) && StartInv(c, s)
    && ConnectInv(s.life.main, s.retry, ConnectPhase(s.log)) && GateInv(s)
    && RouteInv(c, s.req, s.chan.accepted)
  }
}
