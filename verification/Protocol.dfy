/** The rules a scanned-code run keeps, as an observer of its events sees them.

    A run calls the library and the network one call at a time, publishes
    states to the screen, and is told things while a call is outstanding: that
    a button was pressed, that a peer's request arrived. This module says
    which event may follow which, without saying how the runner is written.
  */
module Protocol {
  import opened Options

  type Flow = nat
  type Code = nat
  /** A sync token; 0 stands for the empty string before the first sync. */
  type Token = nat

  datatype Stage = Requested | Ready | Started | KeysExchanged | CodeScanned | Confirmed | Done | Cancelled

  /** What a call rejects with; the first two are the library's own errors. */
  datatype Error = WrongStage | OtherKind(kind: string) | NotACryptoError

  datatype RequestKind =
    KeysUpload | KeysQuery | KeysClaim | SignatureUpload | SigningKeysUpload | ToDevice | Unmapped(name: string)

  /** An outgoing request; `readable` is whether its body parses. */
  datatype Request = Request(id: nat, kind: RequestKind, readable: bool)

  /** Whether the pump finds an endpoint: `to_device` takes it from the body,
      every other kind from a table. */
  predicate Sendable(r: Request)
  {
    if r.kind.ToDevice? then r.readable else !r.kind.Unmapped?
  }

  predicate Success(status: int) { 200 <= status < 300 }

  datatype Headline =
    | Starting | PublishingKeys | Waiting | Asked | PointCamera | Scanned | ConfirmedWaiting
    | Verified
    | CalledOff
    | DoneEarly
    | CannotShow(kind: string)
    | Unanswered(delivered: bool)
    | StoppedOnError(error: Error)

  /** What the screen shows. */
  datatype View = View(headline: Headline, flow: Option<Flow>, code: Option<Code>, stage: Option<Stage>,
                       awaiting: bool, finished: bool, failed: bool)

  const FIRST_VIEW := View(Starting, None, None, None, false, false, false)

  datatype Call =
    | Create | Take | Put(request: Request) | MarkSent(id: nat) | MarkFailed(id: nat, status: int)
    | Sync(since: Token) | Receive | Ask | ReadStage(flow: Flow) | Accept(flow: Flow) | Cancel(flow: Flow)
    | GetCode(flow: Flow) | ConfirmScan(flow: Flow) | Sleep

  /** What a call can come back with; each call has its own fields. `batch` is
      what `Take` hands over, and the request `Cancel` queued. `late` is whether
      the unanswered-request budget had run out when the stage was read. */
  datatype Reply = Reply(batch: seq<Request>, status: int, readable: bool, next: Option<Token>,
                         flow: Flow, stage: Stage, late: bool, code: Code)

  /** What happens to a run while a call is outstanding: a button, a peer's
      request announced, and what the library does to its own requests. */
  datatype Happening =
    | Confirms | Asks | Stops | Signal(flow: Flow)
    | Queue(kind: RequestKind, readable: bool) | Evict(id: nat)

  datatype Event =
    | Called(call: Call)
    | Resolved(call: Call, reply: Reply)
    | Rejected(call: Call, error: Error)
    | Published(view: View)
    | Subscribed
    | Happened(what: Happening)

  // ---- what an observer remembers ----

  /** The library's outstanding requests, and the id of its next one. */
  datatype Library = Library(queue: seq<Request>, nextId: nat)

  /** What the run was told: a confirmation held, an ask held, a stop, the first
      flow announced while it listened. `heard` counts what happened since the
      latest call went out. */
  datatype World = World(held: bool, askHeld: bool, stopped: bool, signalled: Option<Flow>, listening: bool, heard: nat,
                         library: Library)

  datatype Last = Nothing | Answered(call: Call, reply: Reply) | Threw(call: Call, error: Error)

  /** Where calling the flow off has got to. The library queues it, or says the
      stage moved; then the stage is read again, and the flow was answered after
      all (`Overtaken`) or is still unanswered with nothing queued (`Unqueued`). */
  datatype CallOff = NotCalled | Queued(request: Request) | Moved | Overtaken | Unqueued

  /** What the run owes at once after publishing that its code was scanned. */
  datatype Duty = Free | AskPerson | ConfirmNow

  /** What is on the wire: the outstanding call, how the latest settled, the
      requests handed out and not yet reported, and those answered
      with success (since the flow was called off, once it was). `turns` counts
      the calls that settled, and `task` is the latest that is none of a drain's. */
  datatype Wire = Wire(pending: Option<Call>, turns: nat, last: Last, task: Call, batch: seq<Request>, posted: set<Request>,
                       attempts: nat, stageShown: bool, duty: Duty)

  /** What the run has come to. A drain changes none of it. `looks` counts the
      stages read. */
  datatype Run = Run(created: bool, token: Token, asked: Option<Flow>, accepted: bool, callOff: CallOff, looks: nat,
                     code: Option<Code>, codeShown: bool, view: View)

  datatype Watch = Watch(world: World, run: Run, wire: Wire)

  const FIRST_WATCH := Watch(World(false, false, false, None, false, 0, Library([], 0)),
                             Run(false, 0, None, false, NotCalled, 0, None, false, FIRST_VIEW),
                             Wire(None, 0, Nothing, Create, [], {}, 0, false, Free))

  /** The flow the run is about: its own when it asked, else the first announced. */
  function FlowOf(w: Watch): Option<Flow>
  {
    if w.run.asked.Some? then w.run.asked else w.world.signalled
  }

  /** The last call was a stage read, and this is what it said. */
  predicate Read(wire: Wire, stage: Stage)
  {
    wire.last.Answered? && wire.last.call.ReadStage? && wire.last.reply.stage == stage
  }

  predicate CallingOff(run: Run) { run.callOff.Queued? || run.callOff.Unqueued? }

  /** What the run has to handle: a rejection, a sync that did not answer 200 or
      does not parse, a request with nowhere to go. */
  function Failure(wire: Wire): Option<Error>
  {
    match wire.last
    case Threw(_, error) => Some(error)
    case Answered(Sync(_), reply) => if reply.status != 200 || !reply.readable then Some(NotACryptoError) else None
    case _ => if wire.batch != [] && !Sendable(wire.batch[0]) then Some(NotACryptoError) else None
  }

  /** Failures that do not end the run by themselves: two refusals the run
      carries on after, and whatever a drain of the call-off meets. */
  predicate Handled(run: Run, wire: Wire)
  {
    || (wire.last.Threw? && wire.last.call.GetCode? && !wire.last.error.NotACryptoError?)
    || (wire.last.Threw? && wire.last.call.Cancel? && wire.last.error.WrongStage?)
    || (CallingOff(run) && !(wire.last.Threw? && wire.last.call.Sleep?))
  }

  /** Calls whose effect waits in the library until the next drain. */
  predicate OwesPump(wire: Wire)
  {
    && wire.last.Answered?
    && match wire.last.call
       case Create => true
       case Ask => true
       case Accept(_) => true
       case ConfirmScan(_) => true
       case Receive => true
       case _ => false
  }

  predicate Drained(wire: Wire)
  {
    wire.last.Answered? && wire.last.call.Take? && wire.last.reply.batch == []
  }

  predicate Over(run: Run, wire: Wire)
  {
    wire.stageShown && (Read(wire, Done) || Read(wire, Cancelled)) && !run.callOff.Overtaken?
  }

  /** A stage was read and no state shows it yet. */
  predicate Unshown(wire: Wire)
  {
    wire.last.Answered? && wire.last.call.ReadStage? && !wire.stageShown
  }

  /** The first read of a flow the other side opened says it waits for an answer. */
  predicate OwesAccept(run: Run, wire: Wire)
  {
    run.looks == 1 && Read(wire, Requested) && run.asked.None? && !wire.stageShown
  }

  /** The stage shown calls for the code, or for calling the flow off. */
  predicate CallsForMore(run: Run, wire: Wire)
  {
    && run.code.None? && wire.stageShown
    && (Read(wire, Ready) || Read(wire, Started) || (Read(wire, Requested) && run.asked.Some? && wire.last.reply.late))
  }

  const CANCEL_PUMP_ATTEMPTS := 3

  predicate IsReport(c: Call) { c.Put? || c.MarkSent? || c.MarkFailed? }

  // ---- the rules for calls ----

  predicate MayCall(w: Watch, c: Call)
  {
    var run, wire := w.run, w.wire;
    && wire.pending.None?
    && !run.view.finished
    && !Over(run, wire)
    && (wire.duty.Free? || (wire.duty.ConfirmNow? && c.ConfirmScan?))
    && (OwesPump(wire) ==> c.Take?)
    && (OwesAccept(run, wire) ==> c.Accept?)
    && (Unshown(wire) ==> run.looks == 1 && (c.Accept? || c.ReadStage?))
    && (wire.last.Answered? && wire.last.call.Put? ==> c.MarkSent? || c.MarkFailed?)
    && (wire.batch == [] || Failure(wire).Some? || IsReport(c))
    && (if IsReport(c) then MayReport(wire, c)
        else if CallingOff(run) then MayCallOff(wire, c)
        else
          && (Failure(wire).Some? ==> Recovers(wire, c))
          && (run.callOff.Overtaken? ==> c.ReadStage?)
          && (run.code.Some? ==> run.codeShown)
          && MayStart(w, c))
  }

  /** Requests are posted in order, and each is reported as it was answered. */
  predicate MayReport(wire: Wire, c: Call)
  {
    && wire.last.Answered?
    && match c
       case Put(r) => (wire.last.call.Take? || wire.last.call.MarkSent? || wire.last.call.MarkFailed?) &&
                      wire.batch != [] && r == wire.batch[0] && Sendable(r)
       case MarkSent(id) => wire.last.call.Put? && wire.last.call.request.id == id && Success(wire.last.reply.status)
       case MarkFailed(id, status) => wire.last.call.Put? && wire.last.call.request.id == id &&
                                      status == wire.last.reply.status && !Success(status)
       case _ => false
  }

  /** While a flow is being called off there are drains, at most three, and
      pauses between them; none after one that found nothing outstanding. */
  predicate MayCallOff(wire: Wire, c: Call)
  {
    && (c.Take? || (c.Sleep? && 0 < wire.attempts))
    && wire.attempts < CANCEL_PUMP_ATTEMPTS
    && !Drained(wire)
    && !(wire.last.Threw? && wire.last.call.Sleep?)
  }

  /** The two refusals that are answered by carrying on. */
  predicate Recovers(wire: Wire, c: Call)
  {
    && wire.last.Threw? && wire.last.error.WrongStage?
    && ((wire.last.call.Cancel? && c.ReadStage?) || (wire.last.call.GetCode? && c.Sync?))
  }

  predicate MayStart(w: Watch, c: Call)
  {
    var run, wire := w.run, w.wire;
    match c
    case Create => wire.last.Nothing?
    case Sync(since) =>
      && run.created && since == run.token
      && (FlowOf(w).None? ==> !w.world.askHeld)
      && !CallsForMore(run, wire)
      && (run.view.awaiting ==> wire.last.Answered? && wire.last.call.ReadStage?)
    case Receive => wire.last.Answered? && wire.last.call.Sync?
    case Ask => run.created && FlowOf(w).None? && w.world.askHeld && !w.world.stopped
    case ReadStage(f) => FlowOf(w) == Some(f) && run.view.flow == Some(f) && (w.world.stopped ==> run.callOff.Moved?)
    case Accept(f) => FlowOf(w) == Some(f) && Read(wire, Requested) && run.asked.None? && !run.accepted
    case Cancel(f) => FlowOf(w) == Some(f) && Read(wire, Requested) && run.asked.Some? && wire.last.reply.late && wire.stageShown
    case GetCode(f) => FlowOf(w) == Some(f) && (Read(wire, Ready) || Read(wire, Started)) && wire.stageShown && run.code.None?
    case ConfirmScan(f) => FlowOf(w) == Some(f) && Read(wire, CodeScanned) && wire.duty.ConfirmNow? && w.world.held && run.codeShown
    case _ => run.created
  }

  // ---- the rules for what is shown ----

  predicate MayPublish(w: Watch, v: View)
  {
    var run, wire, was := w.run, w.wire, w.run.view;
    && wire.pending.None?
    && !was.finished
    && (wire.duty.Free? || (wire.duty.AskPerson? && v.awaiting && v.headline.Scanned?))
    && (run.created || (v.finished && v.headline.StoppedOnError?))
    && (v.stage != was.stage ==> v.stage.Some? && Read(wire, v.stage.value))
    && (v.code.Some? ==> v.code == run.code)
    && (v.flow.Some? ==> v.flow == FlowOf(w))
    && (was.flow.Some? ==> v.flow == was.flow)
    && (v.awaiting ==> was.awaiting || (Read(wire, CodeScanned) && run.codeShown))
    && (if v.finished then Ends(run, wire, v) else !v.failed && Failure(wire).None? && !OwesAccept(run, wire) && Tells(wire, v))
  }

  /** The first state after a read says what was read. */
  predicate Tells(wire: Wire, v: View)
  {
    Unshown(wire) ==> v.stage == Some(wire.last.reply.stage)
  }

  /** How a run can end, and what must have come before. */
  predicate Ends(run: Run, wire: Wire, v: View)
  {
    && (v.failed <==> !v.headline.Verified?)
    && match v.headline
       case Verified => Read(wire, Done) && v.stage == Some(Done) && v.flow.Some? && run.codeShown && !v.awaiting
       case CalledOff => Read(wire, Cancelled) && v.stage == Some(Cancelled)
       case DoneEarly => Read(wire, Done) && v.stage == Some(Done) && !run.codeShown
       case CannotShow(kind) => wire.last.Threw? && wire.last.call.GetCode? && wire.last.error == OtherKind(kind)
       case Unanswered(delivered) =>
         && CallingOff(run)
         && (delivered <==> Drained(wire))
         && (delivered && run.callOff.Queued? ==> run.callOff.request in wire.posted)
         && (!delivered ==> wire.attempts == CANCEL_PUMP_ATTEMPTS)
         && !(wire.last.Threw? && wire.last.call.Sleep?)
       case StoppedOnError(error) => Failure(wire) == Some(error) && !Handled(run, wire)
       case _ => false
  }

  // ---- what each event changes ----

  function AfterCall(w: Watch, c: Call): Watch
  {
    Watch(w.world.(held := w.world.held && !c.ConfirmScan?, askHeld := w.world.askHeld && !c.Ask?, heard := 0),
          if c.Accept? then w.run.(accepted := true) else w.run,
          w.wire.(pending := Some(c),
                  task := if c.Take? || IsReport(c) then w.wire.task else c,
                  batch := if IsReport(c) then w.wire.batch else [],
                  attempts := if c.Take? && CallingOff(w.run) then w.wire.attempts + 1 else w.wire.attempts,
                  duty := Free))
  }

  function RunAfter(run: Run, c: Call, reply: Reply): Run
  {
    match c
    case Create => run.(created := true)
    case Sync(_) => run.(token := if reply.next.Some? then reply.next.value else run.token)
    case Ask => run.(asked := Some(reply.flow))
    case Cancel(_) => if reply.batch == [] then run else run.(callOff := Queued(reply.batch[0]))
    case ReadStage(_) =>
      run.(looks := run.looks + 1,
           callOff := if !run.callOff.Moved? then NotCalled else if reply.stage.Requested? then Unqueued else Overtaken)
    case GetCode(_) => run.(code := Some(reply.code))
    case _ => run
  }

  function WireAfter(wire: Wire, c: Call, reply: Reply): Wire
  {
    wire.(pending := None,
          turns := wire.turns + 1,
          last := Answered(c, reply),
          batch := if c.Take? then reply.batch
                   else if (c.MarkSent? || c.MarkFailed?) && wire.batch != [] then wire.batch[1..]
                   else wire.batch,
          posted := if c.Cancel? then {}
                    else if c.Put? && Success(reply.status) then wire.posted + {c.request}
                    else wire.posted,
          attempts := if c.Cancel? || c.ReadStage? then 0 else wire.attempts,
          stageShown := false)
  }

  /** What is left when the requests named `id` leave the queue. */
  function Without(queue: seq<Request>, id: nat, evicting: bool): (left: seq<Request>)
    ensures forall r :: r in left <==> r in queue && (r.id != id || (evicting && r.kind.ToDevice?))
  {
    if queue == [] then []
    else (if queue[0].id != id || (evicting && queue[0].kind.ToDevice?) then [queue[0]] else []) + Without(queue[1..], id, evicting)
  }

  /** A report of success takes the request out, and calling off a flow queues
      the refusal. */
  function LibraryAfter(library: Library, c: Call, reply: Reply): Library
  {
    match c
    case MarkSent(id) => library.(queue := Without(library.queue, id, false))
    case Cancel(_) => Library(library.queue + reply.batch, library.nextId + |reply.batch|)
    case _ => library
  }

  function AfterReply(w: Watch, c: Call, reply: Reply): Watch
  {
    Watch(w.world.(library := LibraryAfter(w.world.library, c, reply)), RunAfter(w.run, c, reply), WireAfter(w.wire, c, reply))
  }

  function AfterThrow(w: Watch, c: Call, error: Error): Watch
  {
    Watch(w.world,
          if c.Cancel? && error.WrongStage? then w.run.(callOff := Moved) else w.run,
          w.wire.(pending := None, turns := w.wire.turns + 1, last := Threw(c, error), stageShown := false))
  }

  /** A first state after a read shows its stage; when that says scanned and
      there is a code, the person is asked next, and a held answer acted on. */
  function AfterPublish(w: Watch, v: View): Watch
  {
    Watch(w.world,
          w.run.(view := v, codeShown := w.run.codeShown || v.code.Some?),
          w.wire.(stageShown := true,
                  duty := if !(Read(w.wire, CodeScanned) && w.run.code.Some?) then Free
                          else if !w.wire.stageShown then AskPerson
                          else if w.wire.duty.AskPerson? && w.world.held then ConfirmNow
                          else Free))
  }

  /** What the library does by itself: a request of its own, and the eviction
      of any but the `to_device` ones. */
  function LibraryTold(library: Library, h: Happening): Library
  {
    match h
    case Queue(kind, readable) =>
      Library(library.queue + [Request(library.nextId, kind, readable)], library.nextId + 1)
    case Evict(id) => library.(queue := Without(library.queue, id, true))
    case _ => library
  }

  function Told(world: World, h: Happening): World
  {
    World(world.held || h.Confirms?, world.askHeld || h.Asks?, world.stopped || h.Stops?,
          if h.Signal? && world.listening && world.signalled.None? then Some(h.flow) else world.signalled,
          world.listening && !h.Stops?, world.heard + 1, LibraryTold(world.library, h))
  }

  function Observe(w: Watch, e: Event): Watch
  {
    match e
    case Called(c) => AfterCall(w, c)
    case Resolved(c, reply) => AfterReply(w, c, reply)
    case Rejected(c, error) => AfterThrow(w, c, error)
    case Published(v) => AfterPublish(w, v)
    case Subscribed => w.(world := w.world.(listening := true))
    case Happened(h) => w.(world := Told(w.world, h))
  }

  /** Whether the rules allow an event where it stands. The world moves only
      while a call is outstanding. */
  predicate Allowed(w: Watch, e: Event)
  {
    match e
    case Called(c) => MayCall(w, c)
    case Resolved(c, _) => w.wire.pending == Some(c)
    case Rejected(c, _) => w.wire.pending == Some(c)
    case Published(v) => MayPublish(w, v)
    case Subscribed => w.wire.pending.None? && !w.run.view.finished && w.wire.last.Answered? && w.wire.last.call.Create?
    case Happened(_) => w.wire.pending.Some?
  }

  /** What a judgement comes to. Where a condition of many clauses is passed from
      one contract to the next, as these are, a function says it instead of a
      predicate: the verifier takes a predicate apart into its clauses at every
      call, and hands a value on as it is. */
  datatype Verdict = Fine | Breach

  function Judge(w: Watch, e: Event): Verdict
  {
    if Allowed(w, e) then Fine else Breach
  }

  /** The log keeps every rule; `known[n]` is what is known after `n` events. */
  ghost predicate Obeys(log: seq<Event>, known: seq<Watch>)
  {
    && |known| == |log| + 1
    && known[0] == FIRST_WATCH
    && forall n {:trigger log[n]} :: 0 <= n < |log| ==> Judge(known[n], log[n]).Fine? && known[n + 1] == Observe(known[n], log[n])
  }

  lemma ObeysMore(log: seq<Event>, known: seq<Watch>, e: Event)
    requires Obeys(log, known) && Judge(known[|log|], e).Fine?
    ensures Obeys(log + [e], known + [Observe(known[|log|], e)])
  {}
}
