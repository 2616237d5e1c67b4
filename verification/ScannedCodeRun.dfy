/** `startScannedCodeRun`: its closure variables, its three phases, and the
    pump, run against an environment that is free at every `await`. What each
    method does next is what `Course` says is due, and the rules allow it.
  */
module ScannedCodeRun {
  import opened Options
  import opened Protocol
  import opened Course

  /** What an `await` comes to; `:-` propagates the last two, as `await` does. */
  datatype Outcome<T> = Value(value: T) | Failed(error: Error) | Pending {
    predicate IsFailure() { !Value? }

    function PropagateFailure<U>(): Outcome<U>
      requires IsFailure()
    {
      if Failed? then Outcome<U>.Failed(error) else Outcome<U>.Pending
    }

    function Extract(): T
      requires Value?
    {
      value
    }
  }

  datatype Attempt = Got(code: Code) | NotYet | Refused

  /** What one turn of a loop comes to. */
  datatype Round = Again(since: Token) | Have(code: Code, since: Token) | Ended

  /** A request leaves the library only once it was posted, so a call-off that
      was queued is still outstanding or was answered with success. */
  ghost predicate Kept(library: Library, callOff: CallOff, wire: Wire)
  {
    && (forall r :: r in library.queue || r in wire.batch ==> r.id < library.nextId)
    && (callOff.Queued? ==> Outstanding(library, wire, callOff.request))
    && (wire.last.Answered? && wire.last.call.Put? ==>
          && wire.batch != [] && wire.last.call.request == wire.batch[0]
          && (Success(wire.last.reply.status) ==> wire.last.call.request in wire.posted))
    && (wire.pending.Some? ==> Reporting(wire, wire.pending.value))
    && (wire.pending.None? && wire.last.Answered? && wire.last.call.Take? ==> library.queue == wire.last.reply.batch)
  }

  ghost function Keeping(library: Library, callOff: CallOff, wire: Wire): Verdict
  {
    if Kept(library, callOff, wire) then Fine else Breach
  }

  /** A call about a request is about the first of the batch, and a success is
      reported only of a request that was posted. */
  ghost predicate Reporting(wire: Wire, call: Call)
  {
    match call
    case Put(r) => wire.batch != [] && r == wire.batch[0]
    case MarkSent(id) => wire.batch != [] && wire.batch[0].id == id && wire.batch[0] in wire.posted
    case MarkFailed(id, _) => wire.batch != []
    case _ => wire.batch == []
  }

  ghost predicate Outstanding(library: Library, wire: Wire, mine: Request)
  {
    && mine.kind.ToDevice? && mine.id < library.nextId
    && (mine in library.queue || mine in wire.posted)
    && (forall r :: (r in library.queue || r in wire.batch) && r.id == mine.id ==> r == mine)
  }

  /** What a settled call leaves behind, but for what the world did meanwhile. */
  ghost function Settled(w: Watch, call: Call, r: Outcome<Reply>): Watch
  {
    match r
    case Pending => w
    case Failed(error) => AfterThrow(w, call, error)
    case Value(reply) => AfterReply(w, call, reply)
  }

  /** Whether an event is what the run does next, and the rules allow it. */
  ghost function Assess(w: Watch, e: Event): Verdict
  {
    if Due(w) == Some(e) then Judge(w, e) else Breach
  }

  /** Between two requests of a drain. */
  ghost predicate Draining(wire: Wire, rest: seq<Request>)
  {
    && wire.pending.None? && wire.batch == rest && wire.duty.Free?
    && wire.last.Answered? && (wire.last.call.Take? || wire.last.call.MarkSent? || wire.last.call.MarkFailed?)
  }

  /** A drain met a failure. */
  ghost predicate Stuck(wire: Wire, error: Error)
  {
    && wire.pending.None? && wire.duty.Free? && Failure(wire) == Some(error) && !Drained(wire)
    && (match wire.last
        case Answered(call, _) => call.Take? || call.MarkSent? || call.MarkFailed?
        case Threw(call, _) => !call.GetCode? && !call.Cancel? && !call.Sleep?
        case Nothing => false)
  }

  /** So did a sync or what came of it; nothing but the outer handler takes that. */
  ghost predicate Unsynced(wire: Wire, error: Error)
  {
    || Stuck(wire, error)
    || (wire.pending.None? && wire.duty.Free? && Failure(wire) == Some(error) && wire.last.Answered? && wire.last.call.Sync?)
  }

  /** The state before the run has a flow. */
  ghost predicate Fresh(run: Run)
  {
    && run.created && !run.accepted && run.callOff.NotCalled? && run.looks == 0 && run.code.None? && !run.codeShown
    && run.view == View(run.view.headline, None, None, None, false, false, false)
  }

  /** Phase 1, between two calls. */
  ghost predicate Idle(w: Watch)
  {
    && Fresh(w.run) && Draining(w.wire, [])
    && (if w.run.asked.Some? then w.wire.task.Ask? && w.run.view.headline.Asked?
        else (w.wire.task.Create? || w.wire.task.Receive?) && w.run.view.headline.Waiting?)
  }

  lemma IdleFinds(w: Watch)
    requires Idle(w)
    ensures Due(w) == DueFinding(w)
  {}

  /** A failure for the outer handler, in a run not yet over. */
  ghost function Broke(w: Watch, error: Error): Verdict
  {
    if && w.wire.pending.None? && w.wire.duty.Free? && !w.run.view.finished
       && Failure(w.wire) == Some(error) && !Handled(w.run, w.wire)
       && (w.run.view.code.Some? ==> w.run.view.code == w.run.code)
       && (w.run.view.flow.Some? ==> w.run.view.flow == FlowOf(w))
    then Fine else Breach
  }

  lemma MayStop(w: Watch, error: Error)
    requires Broke(w, error).Fine?
    ensures Assess(w, Published(Stopping(w.run.view, error))).Fine?
  {}

  /** A run about `flow`, going on. */
  ghost predicate Live(w: Watch, flow: Flow)
  {
    && w.run.created && FlowOf(w) == Some(flow) && w.run.view.flow == Some(flow)
    && !w.run.view.finished && !w.run.view.failed
    && (w.run.view.code.Some? ==> w.run.view.code == w.run.code && w.run.codeShown)
  }

  /** Nothing is outstanding, owed or failed. */
  ghost predicate Rested(w: Watch)
  {
    && w.wire.pending.None? && w.wire.batch == [] && w.wire.duty.Free? && Failure(w.wire).None?
    && !OwesPump(w.wire) && !Over(w.run, w.wire)
    && !OwesAccept(w.run, w.wire) && (Unshown(w.wire) ==> w.run.looks == 1) && (w.run.code.Some? ==> w.run.codeShown)
    && (w.run.callOff.NotCalled? || w.run.callOff.Overtaken?)
    && !(w.wire.last.Answered? && w.wire.last.call.Put?)
  }

  /** At the top of a loop that reads the stage. */
  ghost predicate Reading(w: Watch, flow: Flow)
  {
    Live(w, flow) && Rested(w) && Due(w) == DueReading(w)
  }

  /** A stage was read, and the screen shows it. */
  ghost predicate Shown(w: Watch, flow: Flow, reply: Reply)
  {
    && w.wire.pending.None? && w.wire.batch == [] && w.wire.stageShown && w.run.looks > 1
    && w.wire.last == Answered(ReadStage(flow), reply)
  }

  lemma MayRead(w: Watch, flow: Flow)
    requires Reading(w, flow) && !w.world.stopped
    ensures Assess(w, Called(ReadStage(flow))).Fine?
  {}

  /** What a stage read, and the state that shows it, leave behind. */
  lemma ShowStage(before: Watch, flow: Flow, world: World, reply: Reply)
    requires Live(before, flow) && Rested(before) && before.run.looks > 0
    requires FlowOf(before.(world := world)) == Some(flow)
    ensures var read := AfterReply(AfterCall(before, ReadStage(flow)), ReadStage(flow), reply).(world := world);
      var v := before.run.view.(stage := Some(reply.stage));
      && Assess(read, Published(v)).Fine?
      && var after := AfterPublish(read, v);
         && Live(after, flow) && Shown(after, flow, reply)
         && after.run == before.run.(callOff := NotCalled, looks := before.run.looks + 1, view := v)
         && after.wire.duty == if reply.stage.CodeScanned? && before.run.code.Some? then AskPerson else Free
  {}

  /** What a stage read without showing it leaves behind. */
  lemma HeardStage(before: Watch, flow: Flow, world: World, reply: Reply)
    requires Live(before, flow) && Rested(before)
    requires before.run.callOff.NotCalled? && before.run.looks == 0 && !before.run.accepted
    requires FlowOf(before.(world := world)) == Some(flow)
    ensures var read := AfterReply(AfterCall(before, ReadStage(flow)), ReadStage(flow), reply).(world := world);
      && read.run == before.run.(looks := 1)
      && (if before.run.asked.None? && reply.stage.Requested? then Live(read, flow) && Assess(read, Called(Accept(flow))).Fine?
          else Reading(read, flow))
  {}

  /** The drain after an acceptance, at whose end the loop starts. */
  lemma Accepted(w: Watch, flow: Flow)
    requires Live(w, flow) && Draining(w.wire, []) && w.wire.task.Accept?
    requires w.run.callOff.NotCalled? && w.run.looks == 1 && w.run.code.None?
    ensures Reading(w, flow)
  {}

  /** After a drain of the call-off, however it went. */
  ghost predicate Tried(wire: Wire)
  {
    && wire.pending.None? && wire.duty.Free? && !OwesPump(wire)
    && (wire.batch == [] || Failure(wire).Some?)
    && (match wire.last
        case Answered(call, _) => call.Take? || call.MarkSent? || call.MarkFailed?
        case Threw(call, _) => !call.GetCode? && !call.Cancel? && !call.Sleep?
        case Nothing => false)
  }

  lemma MayPause(w: Watch)
    requires CallingOff(w.run) && w.run.created && !w.run.view.finished && Tried(w.wire) && !Drained(w.wire)
    requires 0 < w.wire.attempts < CANCEL_PUMP_ATTEMPTS
    ensures Assess(w, Called(Sleep)).Fine?
    ensures forall world, reply :: Assess(AfterReply(AfterCall(w, Sleep), Sleep, reply).(world := world), Called(Take)).Fine?
  {}

  /** Before there is a code, and between two reads of the stage. */
  ghost predicate Looking(w: Watch, flow: Flow, since: Token)
  {
    Reading(w, flow) && w.run.token == since && Searching(w.run) && w.run.looks > 0
  }

  /** A run that has a flow and has not looked at it. */
  ghost predicate Beginning(w: Watch, flow: Flow, since: Token)
  {
    && Reading(w, flow) && w.run.token == since && Searching(w.run)
    && w.run.callOff.NotCalled? && !w.run.accepted && w.run.looks == 0
  }

  ghost predicate Searching(run: Run) { run.code.None? && !run.codeShown && run.view.code.None? && !run.view.awaiting }

  /** A code has just been handed over. */
  ghost function Found(w: Watch, flow: Flow, code: Code, since: Token): Verdict
  {
    if && Live(w, flow) && w.run.callOff.NotCalled? && w.run.token == since
       && w.run.code == Some(code) && !w.run.codeShown && !w.run.view.awaiting && w.run.looks > 1
       && w.wire.pending.None? && w.wire.batch == [] && w.wire.duty.Free?
       && w.wire.last.Answered? && w.wire.last.call.GetCode?
    then Fine else Breach
  }

  /** The words after a drain of phase 1, which say what it was for. */
  lemma MaySay(w: Watch, headline: Headline)
    requires Fresh(w.run) && Draining(w.wire, [])
    requires if w.run.asked.Some? then w.wire.task.Ask? && w.run.view.headline.Waiting? && headline.Asked?
      else w.wire.task.Create? && w.run.view.headline.PublishingKeys? && headline.Waiting?
    ensures var v := w.run.view.(headline := headline);
      Assess(w, Published(v)).Fine? && Idle(AfterPublish(w, v))
  {}

  lemma MayCancel(w: Watch, flow: Flow, reply: Reply)
    requires Live(w, flow) && Shown(w, flow, reply) && w.wire.duty.Free? && w.run.callOff.NotCalled?
    requires reply.stage.Requested? && reply.late && w.run.asked.Some? && w.run.code.None?
    ensures Assess(w, Called(Cancel(flow))).Fine?
  {}

  /** The library has refused to call the flow off because its stage moved. */
  ghost predicate TurnedDown(w: Watch, flow: Flow)
  {
    && Live(w, flow) && w.run.callOff.Moved? && w.run.code.None? && w.run.looks > 0
    && w.wire.pending.None? && w.wire.batch == [] && w.wire.duty.Free? && !w.wire.stageShown
    && w.wire.last == Threw(Cancel(flow), WrongStage)
  }

  lemma MayReread(w: Watch, flow: Flow)
    requires TurnedDown(w, flow)
    ensures Assess(w, Called(ReadStage(flow))).Fine?
  {}

  /** The stage read again, after a refusal that says it moved. */
  lemma ShowReread(before: Watch, flow: Flow, world: World, reply: Reply)
    requires TurnedDown(before, flow) && FlowOf(before.(world := world)) == Some(flow)
    ensures var read := AfterReply(AfterCall(before, ReadStage(flow)), ReadStage(flow), reply).(world := world);
      var v := before.run.view.(stage := Some(reply.stage));
      && Assess(read, Published(v)).Fine?
      && var after := AfterPublish(read, v);
         && after.run == before.run.(callOff := if reply.stage.Requested? then Unqueued else Overtaken,
                                     looks := before.run.looks + 1, view := v)
         && (if reply.stage.Requested? then Live(after, flow) && Assess(after, Called(Take)).Fine? && after.wire.attempts == 0
             else Reading(after, flow))
  {}

  lemma CancelQueued(before: Watch, flow: Flow, world: World, reply: Reply)
    requires Live(before, flow) && before.run.code.None? && before.wire.batch == [] && reply.batch != []
    requires FlowOf(before.(world := world)) == Some(flow)
    ensures var after := AfterReply(AfterCall(before, Cancel(flow)), Cancel(flow), reply).(world := world);
      Live(after, flow) && Assess(after, Called(Take)).Fine? && after.wire.attempts == 0
  {}

  /** What a drain that finds nothing outstanding proves. */
  lemma DeliveredIsPosted(library: Library, callOff: CallOff, wire: Wire)
    requires Keeping(library, callOff, wire).Fine? && wire.pending.None? && Drained(wire) && callOff.Queued?
    ensures callOff.request in wire.posted
  {}

  lemma MayGiveUp(w: Watch, flow: Flow, delivered: bool)
    requires Live(w, flow) && CallingOff(w.run) && Tried(w.wire) && (delivered <==> Drained(w.wire))
    requires delivered && w.run.callOff.Queued? ==> w.run.callOff.request in w.wire.posted
    requires !delivered ==> w.wire.attempts == CANCEL_PUMP_ATTEMPTS
    ensures Assess(w, Published(Failing(w.run.view, Unanswered(delivered)))).Fine?
  {}

  lemma MayGetCode(w: Watch, flow: Flow, reply: Reply)
    requires Live(w, flow) && Shown(w, flow, reply) && w.wire.duty.Free? && w.run.callOff.NotCalled? && w.run.code.None?
    requires reply.stage.Ready? || reply.stage.Started?
    ensures Assess(w, Called(GetCode(flow))).Fine?
  {}

  /** What asking for the code leaves behind: the code; or a refusal that means
      it is not built yet, after which there is a sync; or one to be shown. */
  lemma AfterGetCode(before: Watch, flow: Flow, world: World, got: Outcome<Reply>)
    requires Live(before, flow) && before.run.callOff.NotCalled? && Searching(before.run)
    requires before.wire.batch == [] && before.run.looks > 1
    requires FlowOf(before.(world := world)) == Some(flow)
    ensures var after := Settled(AfterCall(before, GetCode(flow)), GetCode(flow), got).(world := world);
      match got
      case Pending => true
      case Value(reply) => Found(after, flow, reply.code, before.run.token).Fine?
      case Failed(WrongStage) => after.run == before.run && Assess(after, Called(Sync(before.run.token))).Fine?
      case Failed(OtherKind(kind)) => Assess(after, Published(Failing(before.run.view, CannotShow(kind)))).Fine?
      case Failed(NotACryptoError) => Broke(after, NotACryptoError).Fine?
  {}

  /** A stage that is over, shown before there was a code. */
  lemma MayEndEarly(w: Watch, flow: Flow, reply: Reply)
    requires Live(w, flow) && Shown(w, flow, reply) && w.wire.duty.Free? && w.run.view.stage == Some(reply.stage)
    requires w.run.code.None? && !w.run.codeShown && w.run.callOff.NotCalled? && (reply.stage.Done? || reply.stage.Cancelled?)
    ensures var headline := if reply.stage.Done? then DoneEarly else CalledOff;
      Assess(w, Published(Failing(w.run.view, headline))).Fine?
  {}

  /** This side's own flow, still unanswered when its time is up. */
  ghost predicate Unanswerable(run: Run, reply: Reply) { reply.stage.Requested? && run.asked.Some? && reply.late }

  /** A stage that calls for nothing is followed by another sync. */
  lemma MaySyncOn(w: Watch, flow: Flow, reply: Reply)
    requires Live(w, flow) && Shown(w, flow, reply) && w.wire.duty.Free? && w.run.callOff.NotCalled?
    requires !reply.stage.Done? && !reply.stage.Cancelled? && (w.run.code.Some? ==> w.run.codeShown)
    requires w.run.code.Some? || !(reply.stage.Ready? || reply.stage.Started? || Unanswerable(w.run, reply))
    ensures Assess(w, Called(Sync(w.run.token))).Fine?
  {}

  /** The drain after a sync of phase 2, at whose end the loop starts again. */
  lemma SyncedLooking(w: Watch, flow: Flow)
    requires Live(w, flow) && Draining(w.wire, []) && w.wire.task.Receive? && Searching(w.run)
    requires w.run.looks > 0 && w.run.callOff.NotCalled?
    ensures Looking(w, flow, w.run.token)
  {}

  /** While the code is on screen, and between two reads of the stage. */
  ghost predicate Deciding(w: Watch, flow: Flow, since: Token)
  {
    Reading(w, flow) && !Unshown(w.wire) && w.run.token == since && Bound(w.run)
  }

  /** The code is on screen, and the flow is not this side's to call off. */
  ghost predicate Bound(run: Run) { run.callOff.NotCalled? && run.code.Some? && run.codeShown && run.looks > 1 }

  /** In phase 3, when a sync comes next. */
  ghost predicate MaySync(w: Watch, flow: Flow, since: Token)
  {
    Live(w, flow) && Bound(w.run) && w.run.token == since && Assess(w, Called(Sync(since))).Fine?
  }

  lemma MaySayConfirmed(w: Watch, flow: Flow)
    requires Live(w, flow) && Bound(w.run) && Draining(w.wire, []) && w.wire.task.ConfirmScan? && w.run.view.awaiting
    ensures var v := w.run.view.(awaiting := false, headline := ConfirmedWaiting);
      Assess(w, Published(v)).Fine? && MaySync(AfterPublish(w, v), flow, w.run.token)
  {}

  /** The code is shown unless the run was stopped meanwhile. */
  lemma MayShowCode(w: Watch, flow: Flow, code: Code)
    requires Found(w, flow, code, w.run.token).Fine?
    ensures if w.world.stopped then Due(w).None?
      else var v := w.run.view.(code := Some(code), headline := PointCamera);
           Assess(w, Published(v)).Fine? && Deciding(AfterPublish(w, v), flow, w.run.token)
  {}

  /** The person is asked when the flow says its code was scanned, and an answer
      they have already given is acted on next. */
  lemma MayAskPerson(w: Watch, flow: Flow, reply: Reply)
    requires Live(w, flow) && Shown(w, flow, reply) && w.wire.duty.AskPerson? && reply.stage.CodeScanned? && Bound(w.run)
    ensures var v := w.run.view.(awaiting := true, headline := Scanned);
      && Assess(w, Published(v)).Fine?
      && var after := AfterPublish(w, v);
         && Live(after, flow) && Shown(after, flow, reply)
         && after.wire.duty == (if w.world.held then ConfirmNow else Free)
         && (w.world.held ==> Assess(after, Called(ConfirmScan(flow))).Fine?)
  {}

  lemma MayEnd(w: Watch, flow: Flow, reply: Reply)
    requires Live(w, flow) && Shown(w, flow, reply) && w.wire.duty.Free? && w.run.view.stage == Some(reply.stage) && Bound(w.run)
    ensures reply.stage.Done? ==> Assess(w, Published(Ending(w.run.view, Verified))).Fine?
    ensures reply.stage.Cancelled? ==> Assess(w, Published(Ending(w.run.view, CalledOff))).Fine?
  {}

  /** After a sync of phase 3: a pause, and then the next read. */
  ghost predicate Pausing(w: Watch, flow: Flow)
  {
    Live(w, flow) && Bound(w.run) && Draining(w.wire, []) && w.wire.task.Receive?
  }

  lemma MayPoll(w: Watch, flow: Flow)
    requires Pausing(w, flow)
    ensures Assess(w, Called(Sleep)).Fine?
  {}

  lemma Paused(before: Watch, flow: Flow, world: World, reply: Reply)
    requires Pausing(before, flow) && FlowOf(before.(world := world)) == Some(flow)
    ensures Deciding(AfterReply(AfterCall(before, Sleep), Sleep, reply).(world := world), flow, before.run.token)
  {}

  /** Phase 1 is over once there is a flow, which is shown first. */
  lemma MayShowFlow(w: Watch, flow: Flow)
    requires Idle(w) && FlowOf(w) == Some(flow) && !w.world.stopped
    ensures var v := w.run.view.(flow := Some(flow));
      Assess(w, Published(v)).Fine? && Beginning(AfterPublish(w, v), flow, w.run.token)
  {}

  lemma {:induction false} StopWasPressed(log: seq<Event>, known: seq<Watch>)
    requires Obeys(log, known)
    ensures known[|log|].world.stopped ==> Happened(Stops) in log
  {
    if log != [] {
      var n := |log| - 1;
      assert log[..n] + [log[n]] == log;
      StopWasPressed(log[..n], known[..|log|]);
    }
  }

  lemma KeptTold(library: Library, callOff: CallOff, wire: Wire, h: Happening)
    requires Keeping(library, callOff, wire).Fine? && wire.pending.Some?
    ensures Keeping(LibraryTold(library, h), callOff, wire).Fine?
  {}

  lemma KeptCall(library: Library, w: Watch, call: Call)
    requires Keeping(library, w.run.callOff, w.wire).Fine? && MayCall(w, call)
    ensures Keeping(library, w.run.callOff, AfterCall(w, call).wire).Fine?
  {}

  lemma KeptTake(library: Library, callOff: CallOff, wire: Wire, reply: Reply)
    requires Keeping(library, callOff, wire).Fine? && wire.pending == Some(Take) && reply.batch == library.queue
    ensures Keeping(library, callOff, WireAfter(wire, Take, reply)).Fine?
  {}

  /** A request that is reported sent was posted, so its leaving loses nothing. */
  lemma KeptSent(library: Library, callOff: CallOff, wire: Wire, id: nat, reply: Reply)
    requires Keeping(library, callOff, wire).Fine? && wire.pending == Some(MarkSent(id))
    ensures Keeping(LibraryAfter(library, MarkSent(id), reply), callOff, WireAfter(wire, MarkSent(id), reply)).Fine?
  {}

  lemma KeptCancel(library: Library, callOff: CallOff, wire: Wire, flow: Flow, reply: Reply)
    requires Keeping(library, callOff, wire).Fine? && wire.pending == Some(Cancel(flow))
    requires reply.batch == [Refusal(library, reply)]
    ensures Keeping(LibraryAfter(library, Cancel(flow), reply), Queued(reply.batch[0]),
                    WireAfter(wire, Cancel(flow), reply)).Fine?
  {}

  lemma KeptOther(library: Library, run: Run, wire: Wire, call: Call, reply: Reply)
    requires Keeping(library, run.callOff, wire).Fine? && wire.pending == Some(call)
    requires !call.Take? && !call.MarkSent? && !call.Cancel? && reply.batch == []
    ensures Keeping(library, RunAfter(run, call, reply).callOff, WireAfter(wire, call, reply)).Fine?
  {}

  /** What an answer changes of what the run's fields are linked to: only the
      library's requests, and the flow once it is asked for. */
  lemma AnswerKeeps(before: Watch, call: Call, reply: Reply)
    ensures var after := AfterReply(before, call, reply);
      && after.world == before.world.(library := LibraryAfter(before.world.library, call, reply))
      && after.run.view == before.run.view && after.wire.duty == before.wire.duty && after.wire.turns == before.wire.turns + 1
      && FlowOf(after) == if call.Ask? then Some(reply.flow) else FlowOf(before)
  {}

  class ScannedCodeRun {
    // closure variables
    var state: View
    var stopped: bool
    var confirmRequested: bool
    var askRequested: bool
    var announced: Option<Flow>
    var openedHere: bool
    var subscribed: bool
    // the environment: what it will do, and the library's outstanding requests
    const script: seq<Turn>
    var at: nat
    var library: Library
    // the events so far, and what the observer makes of them
    var log: seq<Event>
    ghost var w: Watch
    ghost var known: seq<Watch>

    constructor (script: seq<Turn>)
      ensures Standing().Fine? && Announced() && w == FIRST_WATCH && log == [] && !openedHere
      ensures this.script == script
    {
      this.script := script;
      state, stopped, confirmRequested, askRequested := FIRST_VIEW, false, false, false;
      announced, openedHere, subscribed := None, false, false;
      at, library, log, w, known := 0, Library([], 0), [], FIRST_WATCH, [FIRST_WATCH];
    }

    /** The log keeps the rules so far, and is the script's course. */
    ghost function Logged(): Verdict
      reads this
    {
      if Obeys(log, known) && Traced(script, log, known) && w == known[|log|] then Fine else Breach
    }

    /** The fields are what the observer makes them out to be. */
    ghost predicate Linked()
      reads this
    {
      && state == w.run.view
      && stopped == w.world.stopped
      && subscribed == w.world.listening
      && (confirmRequested == w.world.held || (w.wire.duty.ConfirmNow? && !confirmRequested))
      && (askRequested ==> w.world.askHeld)
      && (FlowOf(w).None? ==> askRequested == w.world.askHeld)
      && at == w.wire.turns <= |script|
      && library == w.world.library
    }

    ghost function Standing(): Verdict
      reads this
    {
      if Logged().Fine? && Linked() && Keeping(library, w.run.callOff, w.wire).Fine? then Fine else Breach
    }

    ghost predicate Announced()
      reads this
    {
      announced == FlowOf(w)
    }

    /** A call is outstanding, and the script has no more turns. */
    ghost predicate Waits()
      reads this
    {
      w.wire.pending.Some? && Comes(script, w, w.wire.pending.value).None?
    }

    /** Nothing is outstanding, and nothing is to be done. */
    ghost predicate Rests()
      reads this
    {
      w.wire.pending.None? && Due(w).None? && (w.run.view.finished || w.world.stopped)
    }

    /** What the run does itself. */
    method Record(e: Event)
      requires Logged().Fine? && Assess(w, e).Fine? && w.wire.pending.None?
      modifies this`log, this`known, this`w
      ensures Logged().Fine? && log == old(log) + [e] && w == Observe(old(w), e)
    {
      ObeysMore(log, known, e);
      TracedMore(script, log, known, e);
      w := Observe(w, e);
      log, known := log + [e], known + [w];
    }

    /** What comes to it while a call is outstanding. */
    method Hear(e: Event)
      requires Logged().Fine? && w.wire.pending.Some? && Comes(script, w, w.wire.pending.value) == Some(e)
      modifies this`log, this`known, this`w
      ensures Logged().Fine? && log == old(log) + [e] && w == Observe(old(w), e)
    {
      ObeysMore(log, known, e);
      TracedMore(script, log, known, e);
      w := Observe(w, e);
      log, known := log + [e], known + [w];
    }

    method Update(v: View)
      requires Standing().Fine? && Assess(w, Published(v)).Fine?
      modifies this`state, this`log, this`known, this`w
      ensures Standing().Fine? && w == AfterPublish(old(w), v) && FlowOf(w) == old(FlowOf(w))
    {
      state := v;
      Record(Published(v));
    }

    /** The next thing the script has happen. */
    ghost predicate Hears(h: Happening)
      reads this
    {
      w.wire.pending.Some? && Comes(script, w, w.wire.pending.value) == Some(Happened(h))
    }

    /** It has happened, and no call was made or settled. */
    twostate predicate Heard(h: Happening)
      reads this
    {
      Onward() && at == old(at) && w == Observe(old(w), Happened(h))
    }

    /** Time has passed: scripts are used up, and the flow stays the flow. */
    twostate predicate Onward()
      reads this
    {
      && Standing().Fine?
      && old(at) <= at
      && openedHere == old(openedHere)
      && (old(Announced()) ==> Announced())
      && (old(FlowOf(w)).Some? ==> FlowOf(w) == old(FlowOf(w)))
    }

    /** The confirm button: held, not dropped. */
    method Confirm()
      requires Standing().Fine? && w.wire.duty.Free? && Hears(Confirms)
      modifies this
      ensures Heard(Confirms) && confirmRequested && w.world.held
    {
      confirmRequested := true;
      Hear(Happened(Confirms));
    }

    /** The button that asks from this side. */
    method AskOtherDevices()
      requires Standing().Fine? && w.wire.duty.Free? && Hears(Asks)
      modifies this
      ensures Heard(Asks) && askRequested && w.world.askHeld
    {
      askRequested := true;
      Hear(Happened(Asks));
    }

    /** Stops the loop and drops the signal subscription. */
    method Stop()
      requires Standing().Fine? && w.wire.duty.Free? && Hears(Stops)
      modifies this
      ensures Heard(Stops) && stopped && !subscribed
    {
      stopped, subscribed := true, false;
      Hear(Happened(Stops));
    }

    /** The listener: the first flow announced is the one. */
    method OnSignal(f: Flow)
      requires Standing().Fine? && w.wire.duty.Free? && Hears(Signal(f))
      modifies this
      ensures Heard(Signal(f)) && subscribed == old(subscribed)
      ensures announced == if subscribed && old(announced).None? then Some(f) else old(announced)
    {
      Hear(Happened(Signal(f)));
      if subscribed && announced == None {
        announced := Some(f);
      }
    }

    /** What the library does by itself. */
    method LibraryActs(h: Happening)
      requires Standing().Fine? && w.wire.duty.Free? && Hears(h) && (h.Queue? || h.Evict?)
      modifies this
      ensures Heard(h)
    {
      KeptTold(library, w.run.callOff, w.wire, h);
      match h
      case Queue(kind, readable) =>
        library := library.(queue := library.queue + [Request(library.nextId, kind, readable)], nextId := library.nextId + 1);
        Hear(Happened(h));
      case Evict(id) =>
        library := library.(queue := Without(library.queue, id, true));
        Hear(Happened(h));
    }

    /** One thing that happens while a call is outstanding. */
    method Meanwhile(h: Happening)
      requires Standing().Fine? && w.wire.duty.Free? && Hears(h)
      modifies this
      ensures Heard(h)
    {
      match h
      case Confirms => Confirm();
      case Asks => AskOtherDevices();
      case Stops => Stop();
      case Signal(f) => OnSignal(f);
      case _ => LibraryActs(h);
    }

    /** The library's side of a call that resolves: a drain hands over all that
        is outstanding, a report of success takes the request out, and calling
        off a flow queues the refusal. */
    method Serve(call: Call, answer: Reply) returns (reply: Reply)
      requires Keeping(library, w.run.callOff, w.wire).Fine? && w.wire.pending == Some(call)
      modifies this`library
      ensures Keeping(library, RunAfter(w.run, call, reply).callOff, WireAfter(w.wire, call, reply)).Fine?
      ensures reply == answer.(batch := Handed(old(library), call, answer))
      ensures library == LibraryAfter(old(library), call, reply)
    {
      match call
      case Take =>
        reply := answer.(batch := library.queue);
        KeptTake(library, w.run.callOff, w.wire, reply);
      case MarkSent(id) =>
        reply := answer.(batch := []);
        KeptSent(library, w.run.callOff, w.wire, id, reply);
        library := library.(queue := Without(library.queue, id, false));
      case Cancel(flow) =>
        reply := answer.(batch := [Refusal(library, answer)]);
        KeptCancel(library, w.run.callOff, w.wire, flow, reply);
        library := library.(queue := library.queue + reply.batch, nextId := library.nextId + 1);
      case _ =>
        reply := answer.(batch := []);
        KeptOther(library, w.run, w.wire, call, reply);
    }

    method Resolve(call: Call, answer: Reply) returns (reply: Reply)
      requires Standing().Fine? && w.wire.pending == Some(call) && w.wire.duty.Free?
      requires at < |script| && w.world.heard == |script[at].meanwhile| && script[at].settles == Resolves(answer)
      modifies this`at, this`library, this`log, this`known, this`w
      ensures Standing().Fine? && at == old(at) + 1
      ensures call.Cancel? ==> reply.batch != []
      ensures w == Observe(old(w), Resolved(call, reply))
      ensures !call.Ask? ==> FlowOf(w) == old(FlowOf(w))
    {
      reply := Serve(call, answer);
      AnswerKeeps(w, call, reply);
      at := at + 1;
      Hear(Resolved(call, reply));
    }

    /** A call goes out. */
    method Send(call: Call)
      requires Standing().Fine? && Assess(w, Called(call)).Fine? && (call.ConfirmScan? ==> !confirmRequested) && !call.Ask?
      modifies this`log, this`known, this`w
      ensures Standing().Fine? && w == AfterCall(old(w), call) && FlowOf(w) == old(FlowOf(w))
    {
      KeptCall(library, w, call);
      Record(Called(call));
    }

    /** The ask a person pressed for goes out, and is no longer held. */
    method SendAsk()
      requires Standing().Fine? && Assess(w, Called(Ask)).Fine?
      modifies this`askRequested, this`log, this`known, this`w
      ensures Standing().Fine? && w == AfterCall(old(w), Ask) && FlowOf(w) == old(FlowOf(w))
    {
      KeptCall(library, w, Ask);
      askRequested := false;
      Record(Called(Ask));
    }

    method Reject(call: Call, error: Error)
      requires Standing().Fine? && w.wire.pending == Some(call) && w.wire.duty.Free?
      requires at < |script| && w.world.heard == |script[at].meanwhile| && script[at].settles == Rejects(error)
      modifies this`at, this`log, this`known, this`w
      ensures Standing().Fine? && at == old(at) + 1 && w == Observe(old(w), Rejected(call, error)) && FlowOf(w) == old(FlowOf(w))
    {
      at := at + 1;
      Hear(Rejected(call, error));
    }

    method Wait(meanwhile: seq<Happening>)
      requires Standing().Fine? && w.wire.pending.Some? && w.wire.duty.Free? && w.world.heard == 0
      requires at < |script| && meanwhile == script[at].meanwhile
      modifies this
      ensures Onward() && at == old(at) && w == old(w).(world := w.world) && w.world.heard == |meanwhile|
      ensures w.world.listening ==> old(w.world.listening)
    {
      for i := 0 to |meanwhile|
        invariant Onward() && at == old(at) && w == old(w).(world := w.world) && w.world.heard == i
        invariant w.world.listening ==> old(w.world.listening)
      {
        Meanwhile(meanwhile[i]);
      }
    }

    method Settle(call: Call, settles: Settlement) returns (r: Outcome<Reply>)
      requires Standing().Fine? && w.wire.pending == Some(call) && w.wire.duty.Free?
      requires at < |script| && w.world.heard == |script[at].meanwhile| && script[at].settles == settles
      modifies this`at, this`library, this`log, this`known, this`w
      ensures Standing().Fine? && at == old(at) + 1 && !r.Pending?
      ensures w == Settled(old(w), call, r).(world := w.world) && w.world.listening == old(w.world.listening)
      ensures !(call.Ask? && r.Value?) ==> FlowOf(w) == old(FlowOf(w))
      ensures r.Value? && call.Cancel? ==> r.value.batch != []
    {
      match settles {
        case Rejects(error) =>
          Reject(call, error);
          r := Failed(error);
        case Resolves(answer) =>
          var reply := Resolve(call, answer);
          r := Value(reply);
      }
    }

    /** The rest of a call that went out: the world moves, and it settles as the
        next turn of the script says. */
    method Finish(call: Call) returns (r: Outcome<Reply>)
      requires Standing().Fine? && w.wire.pending == Some(call) && w.wire.duty.Free? && w.world.heard == 0
      modifies this
      ensures r.Pending? ==> Waits()
      ensures w.world.listening ==> old(w.world.listening)
      ensures Standing().Fine? && old(at) <= at && (!r.Pending? ==> old(at) < at)
      ensures w == Settled(old(w), call, r).(world := w.world)
      ensures r.Value? && call.Cancel? ==> r.value.batch != []
      ensures old(FlowOf(w)).Some? && !call.Ask? ==> FlowOf(w) == old(FlowOf(w))
      ensures !(call.Ask? && r.Value?) && old(Announced()) ==> Announced()
      ensures openedHere == old(openedHere)
    {
      if at == |script| {
        return Pending;
      }
      var turn := script[at];
      Wait(turn.meanwhile);
      r := Settle(call, turn.settles);
    }

    /** `await`, for every call but the one that names the flow. */
    method Await(call: Call) returns (r: Outcome<Reply>)
      requires Standing().Fine? && Assess(w, Called(call)).Fine?
      requires (call.ConfirmScan? ==> !confirmRequested) && !call.Ask?
      modifies this
      ensures r.Pending? ==> Waits()
      ensures w.world.listening ==> old(w.world.listening)
      ensures Onward() && (!r.Pending? ==> old(at) < at)
      ensures w == Settled(AfterCall(old(w), call), call, r).(world := w.world)
      ensures r.Value? && call.Cancel? ==> r.value.batch != []
    {
      Send(call);
      r := Finish(call);
    }

    // ---- the pump ----

    method Report(request: Request, status: int) returns (r: Outcome<()>)
      requires Standing().Fine? && w.wire.batch != [] && w.wire.pending.None? && w.wire.duty.Free? && !w.run.view.finished
      requires w.wire.last.Answered? && w.wire.last.call == Put(request) && w.wire.last.reply.status == status
      requires w.wire.batch[0] == request && Sendable(request)
      modifies this
      ensures r.Pending? ==> Waits()
      ensures Onward() && w.run == old(w.run) && w.wire.attempts == old(w.wire.attempts) && w.wire.task == old(w.wire.task)
      ensures r.Failed? ==> Stuck(w.wire, r.error)
      ensures r.Value? ==> Draining(w.wire, old(w.wire.batch)[1..]) && !w.wire.last.call.Take?
    {
      if Success(status) {
        var _ :- Await(MarkSent(request.id));
      } else {
        var _ :- Await(MarkFailed(request.id, status));
      }
      r := Value(());
    }

    /** One request of a drain: posted, and reported as it was answered. */
    method Post(request: Request) returns (r: Outcome<()>)
      requires Standing().Fine? && w.wire.batch != [] && w.wire.batch[0] == request
      requires Draining(w.wire, w.wire.batch) && !Drained(w.wire) && !w.run.view.finished
      modifies this
      ensures r.Pending? ==> Waits()
      ensures Onward() && w.run == old(w.run) && w.wire.attempts == old(w.wire.attempts) && w.wire.task == old(w.wire.task)
      ensures r.Failed? ==> Stuck(w.wire, r.error)
      ensures r.Value? ==> Draining(w.wire, old(w.wire.batch)[1..]) && !w.wire.last.call.Take?
    {
      if !Sendable(request) {
        return Failed(NotACryptoError);
      }
      var response :- Await(Put(request));
      r := Report(request, response.status);
    }

    method PostAll(requests: seq<Request>) returns (r: Outcome<()>)
      requires Standing().Fine? && !w.run.view.finished && Draining(w.wire, requests)
      requires w.wire.last.call.Take? && w.wire.last.reply.batch == requests
      modifies this
      ensures r.Pending? ==> Waits()
      ensures Onward() && w.run == old(w.run) && w.wire.attempts == old(w.wire.attempts) && w.wire.task == old(w.wire.task)
      ensures r.Failed? ==> Stuck(w.wire, r.error)
      ensures r.Value? ==> Draining(w.wire, []) && (requests == [] <==> Drained(w.wire))
    {
      var i := 0;
      while i < |requests|
        invariant 0 <= i <= |requests| && Onward()
        invariant w.run == old(w.run) && w.wire.attempts == old(w.wire.attempts) && w.wire.task == old(w.wire.task)
        invariant Draining(w.wire, requests[i..])
        invariant if i == 0 then Drained(w.wire) == (requests == []) else !w.wire.last.call.Take?
      {
        var _ :- Post(requests[i]);
        i := i + 1;
      }
      r := Value(());
    }

    /** Drains the library once and posts everything it handed over. */
    method Pump() returns (r: Outcome<nat>)
      requires Standing().Fine? && Assess(w, Called(Take)).Fine?
      modifies this
      ensures r.Pending? ==> Waits()
      ensures Onward() && w.run == old(w.run) && (!r.Pending? ==> old(at) < at)
      ensures w.wire.attempts == (old(w.wire.attempts) + if CallingOff(w.run) then 1 else 0) && w.wire.task == old(w.wire.task)
      ensures r.Failed? ==> Stuck(w.wire, r.error)
      ensures r.Value? ==> Draining(w.wire, []) && (r.value == 0 <==> Drained(w.wire))
    {
      var taken :- Await(Take);
      var _ :- PostAll(taken.batch);
      r := Value(|taken.batch|);
    }

    /** What a sync brought, given to the library, and the drain after it. */
    method Feed() returns (r: Outcome<()>)
      requires Standing().Fine? && Assess(w, Called(Receive)).Fine? && !CallingOff(w.run) && w.run.created
      modifies this
      ensures r.Pending? ==> Waits()
      ensures Onward() && w.run == old(w.run)
      ensures r.Failed? ==> Stuck(w.wire, r.error)
      ensures r.Value? ==> Draining(w.wire, []) && w.wire.task.Receive?
    {
      var _ :- Await(Receive);
      var _ :- Pump();
      r := Value(());
    }

    /** The request of a sync, and the token it brings; any status but 200 is a
        failure. */
    method Fetch(since: Token) returns (r: Outcome<Token>)
      requires Standing().Fine? && Assess(w, Called(Sync(since))).Fine? && !CallingOff(w.run) && w.run.token == since
      modifies this
      ensures r.Pending? ==> Waits()
      ensures Onward() && w.run == old(w.run).(token := w.run.token) && (!r.Pending? ==> old(at) < at)
      ensures r.Failed? ==> Unsynced(w.wire, r.error)
      ensures r.Value? ==> w.run.token == r.value && Assess(w, Called(Receive)).Fine? && w.run.created
      ensures !r.Pending? && w.wire.last.Answered? ==>
        w.wire.last.call == Sync(since) && (r.Value? <==> w.wire.last.reply.status == 200 && w.wire.last.reply.readable)
    {
      var response :- Await(Sync(since));
      if response.status != 200 || !response.readable {
        return Failed(NotACryptoError);
      }
      r := Value(if response.next.Some? then response.next.value else since);
    }

    /** One `/sync`, fed to the library, returning the next batch token. */
    method SyncOnce(since: Token) returns (r: Outcome<Token>)
      requires Standing().Fine? && Assess(w, Called(Sync(since))).Fine? && !CallingOff(w.run) && w.run.token == since
      modifies this
      ensures r.Pending? ==> Waits()
      ensures Onward() && w.run == old(w.run).(token := w.run.token) && (!r.Pending? ==> old(at) < at)
      ensures r.Failed? ==> Unsynced(w.wire, r.error)
      ensures r.Value? ==> Draining(w.wire, []) && w.run.token == r.value && w.wire.task.Receive?
    {
      var next :- Fetch(since);
      var _ :- Feed();
      r := Value(next);
    }

    // ---- the start, and phase 1: a flow exists ----

    /** From here on announcements are heard. */
    method Subscribe()
      requires Standing().Fine? && Assess(w, Subscribed).Fine? && w.wire.pending.None?
      modifies this`subscribed, this`log, this`known, this`w
      ensures Onward() && at == old(at) && w == Observe(old(w), Subscribed) && subscribed
    {
      subscribed := true;
      Record(Subscribed);
    }

    /** The machine, and the listener. */
    method MakeMachine() returns (r: Outcome<()>)
      requires Standing().Fine? && w == FIRST_WATCH && Announced()
      modifies this
      ensures r.Pending? ==> Waits()
      ensures Onward() && Announced()
      ensures r.Failed? ==> Broke(w, r.error).Fine?
      ensures r.Value? ==> w.run == FIRST_WATCH.run.(created := true) && w.wire.task.Create?
      ensures r.Value? ==> Assess(w, Published(FIRST_VIEW.(headline := PublishingKeys))).Fine?
      ensures r.Value? ==> Assess(AfterPublish(w, FIRST_VIEW.(headline := PublishingKeys)), Called(Take)).Fine?
    {
      var _ :- Await(Create);
      Subscribe();
      r := Value(());
    }

    method Prepare() returns (r: Outcome<()>)
      requires Standing().Fine? && w == FIRST_WATCH && Announced()
      modifies this
      ensures r.Pending? ==> Waits()
      ensures Onward() && Announced()
      ensures r.Failed? ==> Broke(w, r.error).Fine?
      ensures r.Value? ==> Idle(w) && w.run.asked.None? && w.run.token == 0
    {
      var _ :- MakeMachine();
      Update(state.(headline := PublishingKeys));
      var _ :- Pump();
      MaySay(w, Waiting);
      Update(state.(headline := Waiting));
      r := Value(());
    }

    /** Asks from this side. The flow is the one asked for, whatever was
        announced meanwhile. */
    method RequestSelfVerification() returns (r: Outcome<()>)
      requires Standing().Fine? && Announced() && Assess(w, Called(Ask)).Fine? && Fresh(w.run)
      modifies this
      ensures r.Pending? ==> Waits()
      ensures Standing().Fine? && Announced() && openedHere == old(openedHere)
      ensures r.Failed? ==> Broke(w, r.error).Fine?
      ensures r.Value? ==> w.run == old(w.run).(asked := announced) && announced.Some? && w.wire.task.Ask?
      ensures r.Value? ==> Assess(w, Called(Take)).Fine?
    {
      SendAsk();
      var reply :- Finish(Ask);
      announced := Some(reply.flow);
      r := Value(());
    }

    /** The drain after an ask, and the state that says it was made. */
    method SayAsked() returns (r: Outcome<()>)
      requires Standing().Fine? && Announced() && Fresh(w.run) && w.run.asked.Some? && w.run.view.headline.Waiting?
      requires Assess(w, Called(Take)).Fine? && w.wire.task.Ask?
      modifies this
      ensures r.Pending? ==> Waits()
      ensures Onward()
      ensures r.Failed? ==> Broke(w, r.error).Fine?
      ensures r.Value? ==> Idle(w) && w.run.asked == old(w.run.asked) && w.run.token == old(w.run.token)
    {
      var _ :- Pump();
      MaySay(w, Asked);
      Update(state.(headline := Asked));
      r := Value(());
    }

    method AskFromHere() returns (r: Outcome<()>)
      requires Standing().Fine? && Announced() && announced.None? && Idle(w) && askRequested && !stopped
      modifies this
      ensures r.Pending? ==> Waits()
      ensures Standing().Fine? && Announced()
      ensures r.Failed? ==> Broke(w, r.error).Fine?
      ensures r.Value? ==> openedHere && Idle(w) && w.run.asked.Some? && w.run.token == old(w.run.token)
    {
      IdleFinds(w);
      var _ :- RequestSelfVerification();
      openedHere := true;
      r := SayAsked();
    }

    /** Syncs until a peer announces a flow, or the person asks from here. */
    method FindFlow() returns (r: Outcome<Token>)
      requires Standing().Fine? && Announced() && Idle(w) && w.run.token == 0 && !openedHere && w.run.asked.None?
      modifies this
      ensures r.Pending? ==> Waits()
      ensures Standing().Fine? && Announced()
      ensures r.Failed? ==> Broke(w, r.error).Fine?
      ensures r.Value? ==> Idle(w) && w.run.token == r.value
      ensures r.Value? ==> (stopped || announced.Some?) && openedHere == w.run.asked.Some?
    {
      var since: Token := 0;
      while !stopped && announced.None?
        invariant Standing().Fine? && Announced() && Idle(w) && w.run.token == since
        invariant !openedHere && w.run.asked.None?
        decreases |script| - at
      {
        if askRequested {
          var _ :- AskFromHere();
          break;
        }
        IdleFinds(w);
        since :- SyncOnce(since);
      }
      r := Value(since);
    }

    // ---- phase 2: agree to it, and show the code ----

    /** `getVerificationStage`, and the state that shows its answer. */
    method ReadAndShow(flow: Flow) returns (r: Outcome<Reply>)
      requires Standing().Fine? && Reading(w, flow) && !stopped && w.run.looks > 0
      modifies this
      ensures r.Pending? ==> Waits()
      ensures Onward() && (!r.Pending? ==> old(at) < at)
      ensures r.Failed? ==> Broke(w, r.error).Fine?
      ensures r.Value? ==> Live(w, flow) && Shown(w, flow, r.value)
      ensures r.Value? ==> w.run == old(w.run).(callOff := NotCalled, looks := old(w.run.looks) + 1,
                                                view := old(w.run.view).(stage := Some(r.value.stage)))
      ensures r.Value? ==> w.wire.duty == if r.value.stage.CodeScanned? && old(w.run.code).Some? then AskPerson else Free
    {
      MayRead(w, flow);
      var reply :- Await(ReadStage(flow));
      ShowStage(old(w), flow, w.world, reply);
      Update(state.(stage := Some(reply.stage)));
      r := Value(reply);
    }

    /** Answers a flow the other side opened. */
    method AcceptFlow(flow: Flow) returns (r: Outcome<()>)
      requires Standing().Fine? && Live(w, flow) && Assess(w, Called(Accept(flow))).Fine?
      requires w.run.callOff.NotCalled? && w.run.looks == 1 && w.run.code.None?
      modifies this
      ensures r.Pending? ==> Waits()
      ensures Onward()
      ensures r.Failed? ==> Broke(w, r.error).Fine?
      ensures r.Value? ==> w.run == old(w.run).(accepted := true) && Reading(w, flow)
    {
      var _ :- Await(Accept(flow));
      var _ :- Pump();
      Accepted(w, flow);
      r := Value(());
    }

    /** Reads the stage once, and accepts a flow the other side opened. */
    method Agree(flow: Flow) returns (r: Outcome<()>)
      requires Standing().Fine? && Reading(w, flow) && !stopped && openedHere == w.run.asked.Some?
      requires w.run.callOff.NotCalled? && !w.run.accepted && w.run.looks == 0 && w.run.code.None?
      modifies this
      ensures r.Pending? ==> Waits()
      ensures Onward()
      ensures r.Failed? ==> Broke(w, r.error).Fine?
      ensures r.Value? ==> Reading(w, flow) && w.run == old(w.run).(accepted := w.run.accepted, looks := 1)
    {
      MayRead(w, flow);
      var reply :- Await(ReadStage(flow));
      HeardStage(old(w), flow, w.world, reply);
      if !openedHere && reply.stage.Requested? {
        var _ :- AcceptFlow(flow);
      }
      r := Value(());
    }

    /** One drain of a call-off: how many requests it handed over, or -1. */
    method TryDrain() returns (r: Outcome<int>)
      requires Standing().Fine? && CallingOff(w.run) && Assess(w, Called(Take)).Fine?
      modifies this
      ensures r.Pending? ==> Waits()
      ensures Onward() && w.run == old(w.run) && !r.Failed? && w.wire.attempts == old(w.wire.attempts) + 1
      ensures r.Value? ==> Tried(w.wire) && (r.value == 0 <==> Drained(w.wire))
    {
      var pending := -1;
      var pump := Pump();
      match pump {
        case Pending => return Pending;
        case Failed(_) =>
        case Value(n) => pending := n;
      }
      r := Value(pending);
    }

    /** The pause between two drains of a call-off. */
    method Pause() returns (r: Outcome<()>)
      requires Standing().Fine? && CallingOff(w.run) && w.run.created && !w.run.view.finished
      requires Tried(w.wire) && !Drained(w.wire) && 0 < w.wire.attempts < CANCEL_PUMP_ATTEMPTS
      modifies this
      ensures r.Pending? ==> Waits()
      ensures Onward() && w.run == old(w.run) && w.wire.attempts == old(w.wire.attempts)
      ensures r.Failed? ==> w.wire.pending.None? && w.wire.last == Threw(Sleep, r.error) && w.wire.duty.Free?
      ensures r.Value? ==> Assess(w, Called(Take)).Fine?
    {
      MayPause(w);
      var _ :- Await(Sleep);
      r := Value(());
    }

    /** At most three drains, until one finds nothing outstanding. */
    method Deliver() returns (r: Outcome<bool>)
      requires Standing().Fine? && CallingOff(w.run) && w.run.created && !w.run.view.finished
      requires Assess(w, Called(Take)).Fine? && w.wire.attempts == 0
      modifies this
      ensures r.Pending? ==> Waits()
      ensures Onward() && w.run == old(w.run)
      ensures r.Failed? ==> w.wire.pending.None? && w.wire.last == Threw(Sleep, r.error) && w.wire.duty.Free?
      ensures r.Value? ==> Tried(w.wire) && (r.value <==> Drained(w.wire))
      ensures r.Value? && !r.value ==> w.wire.attempts == CANCEL_PUMP_ATTEMPTS
    {
      var attempt := 0;
      while attempt < CANCEL_PUMP_ATTEMPTS
        invariant Onward() && w.run == old(w.run) && 0 <= attempt == w.wire.attempts <= CANCEL_PUMP_ATTEMPTS
        invariant if attempt < CANCEL_PUMP_ATTEMPTS then Assess(w, Called(Take)).Fine? else Tried(w.wire) && !Drained(w.wire)
      {
        var pending :- TryDrain();
        if pending == 0 {
          return Value(true);
        }
        attempt := attempt + 1;
        if attempt < CANCEL_PUMP_ATTEMPTS {
          var _ :- Pause();
        }
      }
      r := Value(false);
    }

    method Reread(flow: Flow) returns (r: Outcome<Stage>)
      requires Standing().Fine? && TurnedDown(w, flow)
      modifies this
      ensures r.Pending? ==> Waits()
      ensures Onward()
      ensures r.Failed? ==> Broke(w, r.error).Fine?
      ensures r.Value? ==> w.run == old(w.run).(callOff := if r.value.Requested? then Unqueued else Overtaken, looks := old(w.run.looks) + 1,
                                                view := old(w.run.view).(stage := Some(r.value)))
      ensures r.Value? && r.value.Requested? ==> Live(w, flow) && Assess(w, Called(Take)).Fine? && w.wire.attempts == 0
      ensures r.Value? && !r.value.Requested? ==> Reading(w, flow)
    {
      MayReread(w, flow);
      var reply :- Await(ReadStage(flow));
      ShowReread(old(w), flow, w.world, reply);
      Update(state.(stage := Some(reply.stage)));
      r := Value(reply.stage);
    }

    /** Delivers the call-off, and says how that went. */
    method GiveUp(flow: Flow) returns (r: Outcome<()>)
      requires Standing().Fine? && Live(w, flow) && CallingOff(w.run) && Assess(w, Called(Take)).Fine? && w.wire.attempts == 0
      modifies this
      ensures r.Pending? ==> Waits()
      ensures Onward()
      ensures r.Failed? ==> Broke(w, r.error).Fine?
      ensures r.Value? ==> w.run.view.finished && w.wire.pending.None?
    {
      var delivered :- Deliver();
      if delivered && w.run.callOff.Queued? {
        DeliveredIsPosted(library, w.run.callOff, w.wire);
      }
      MayGiveUp(w, flow, delivered);
      Update(state.(headline := Unanswered(delivered), finished := true, failed := true));
      r := Value(());
    }

    /** `cancelVerification`; a refusal that says the stage moved is answered by
        one more read. `false` when the flow moved after all. */
    method TryCancel(flow: Flow, ghost reply: Reply) returns (r: Outcome<bool>)
      requires Standing().Fine? && Live(w, flow) && Shown(w, flow, reply) && w.wire.duty.Free? && w.run.callOff.NotCalled?
      requires reply.stage.Requested? && reply.late && w.run.asked.Some? && w.run.code.None?
      modifies this
      ensures r.Pending? ==> Waits()
      ensures Onward()
      ensures r.Failed? ==> Broke(w, r.error).Fine?
      ensures r.Value? && r.value ==> Live(w, flow) && CallingOff(w.run) && Assess(w, Called(Take)).Fine? && w.wire.attempts == 0
      ensures r.Value? && !r.value ==> Reading(w, flow)
      ensures r.Value? && !r.value ==> w.run == old(w.run).(callOff := Overtaken, looks := old(w.run.looks) + 1,
                                                            view := old(w.run.view).(stage := w.run.view.stage))
    {
      MayCancel(w, flow, reply);
      var cancelled := Await(Cancel(flow));
      match cancelled {
        case Pending => return Pending;
        case Failed(error) =>
          if !error.WrongStage? {
            return Failed(error);
          }
          var stage :- Reread(flow);
          r := Value(stage.Requested?);
        case Value(answer) =>
          CancelQueued(old(w), flow, w.world, answer);
          r := Value(true);
      }
    }

    /** Calls off a flow nobody answered; `false` when the flow moved after all. */
    method CallOffFlow(flow: Flow, ghost reply: Reply) returns (r: Outcome<bool>)
      requires Standing().Fine? && Live(w, flow) && Shown(w, flow, reply) && w.wire.duty.Free? && w.run.callOff.NotCalled?
      requires reply.stage.Requested? && reply.late && w.run.asked.Some? && w.run.code.None?
      modifies this
      ensures r.Pending? ==> Waits()
      ensures Onward()
      ensures r.Failed? ==> Broke(w, r.error).Fine?
      ensures r.Value? && r.value ==> w.run.view.finished && w.wire.pending.None?
      ensures r.Value? && !r.value ==> Reading(w, flow)
      ensures r.Value? && !r.value ==> w.run == old(w.run).(callOff := Overtaken, looks := old(w.run.looks) + 1,
                                                            view := old(w.run.view).(stage := w.run.view.stage))
    {
      var stands :- TryCancel(flow, reply);
      if stands {
        var _ :- GiveUp(flow);
      }
      r := Value(stands);
    }

    /** `getVerificationCode`: `wrong_stage` is the ordinary refusal, and any
        other of the library's own is shown and ends the run. */
    method TryCode(flow: Flow, ghost reply: Reply) returns (r: Outcome<Attempt>)
      requires Standing().Fine? && Live(w, flow) && Shown(w, flow, reply) && w.wire.duty.Free?
      requires w.run.callOff.NotCalled? && Searching(w.run) && (reply.stage.Ready? || reply.stage.Started?)
      modifies this
      ensures r.Pending? ==> Waits()
      ensures Onward() && (!r.Pending? ==> old(at) < at)
      ensures r.Failed? ==> Broke(w, r.error).Fine?
      ensures r.Value? && r.value.Got? ==> Found(w, flow, r.value.code, old(w.run.token)).Fine?
      ensures r.Value? && r.value.NotYet? ==> w.run == old(w.run) && Assess(w, Called(Sync(w.run.token))).Fine?
      ensures r.Value? && r.value.Refused? ==> w.run.view.finished && w.wire.pending.None?
    {
      MayGetCode(w, flow, reply);
      var got := Await(GetCode(flow));
      AfterGetCode(old(w), flow, w.world, got);
      match got {
        case Pending => return Pending;
        case Value(answer) => r := Value(Got(answer.code));
        case Failed(error) =>
          match error {
            case NotACryptoError => r := Failed(NotACryptoError);
            case WrongStage => r := Value(NotYet);
            case OtherKind(kind) =>
              Update(state.(headline := CannotShow(kind), finished := true, failed := true));
              r := Value(Refused);
          }
      }
    }

    /** The code, once the stage allows one; another sync while it does not. */
    method CodeOrSync(flow: Flow, since: Token, stage: Stage, ghost reply: Reply) returns (r: Outcome<Round>)
      requires Standing().Fine? && Live(w, flow) && Shown(w, flow, reply) && reply.stage == stage && w.wire.duty.Free?
      requires !stage.Done? && !stage.Cancelled? && Searching(w.run) && w.run.callOff.NotCalled? && w.run.token == since
      requires !Unanswerable(w.run, reply)
      modifies this
      ensures r.Pending? ==> Waits()
      ensures Onward() && (!r.Pending? ==> old(at) < at)
      ensures r.Failed? ==> Broke(w, r.error).Fine?
      ensures r.Value? && r.value.Again? ==> Looking(w, flow, r.value.since) && w.run.asked == old(w.run.asked)
      ensures r.Value? && r.value.Have? ==> Found(w, flow, r.value.code, r.value.since).Fine?
      ensures r.Value? && r.value.Ended? ==> w.run.view.finished && w.wire.pending.None?
    {
      if stage.Ready? || stage.Started? {
        var attempt :- TryCode(flow, reply);
        match attempt {
          case Got(code) => return Value(Have(code, since));
          case Refused => return Value(Ended);
          case NotYet =>
        }
      } else {
        MaySyncOn(w, flow, reply);
      }
      var next :- SyncOnce(since);
      SyncedLooking(w, flow);
      r := Value(Again(next));
    }

    /** One turn of the loop of phase 2. */
    method Look(flow: Flow, since: Token) returns (r: Outcome<Round>)
      requires Standing().Fine? && Looking(w, flow, since) && !stopped && openedHere == w.run.asked.Some?
      modifies this
      ensures r.Pending? ==> Waits()
      ensures Onward() && (!r.Pending? ==> old(at) < at)
      ensures r.Failed? ==> Broke(w, r.error).Fine?
      ensures r.Value? && r.value.Again? ==> Looking(w, flow, r.value.since) && w.run.asked == old(w.run.asked)
      ensures r.Value? && r.value.Have? ==> Found(w, flow, r.value.code, r.value.since).Fine?
      ensures r.Value? && r.value.Ended? ==> w.run.view.finished && w.wire.pending.None?
    {
      var reply :- ReadAndShow(flow);
      var stage := reply.stage;
      if openedHere && stage.Requested? && reply.late {
        var over :- CallOffFlow(flow, reply);
        r := Value(if over then Ended else Again(since));
      } else if stage.Cancelled? || stage.Done? {
        MayEndEarly(w, flow, reply);
        Update(state.(headline := if stage.Done? then DoneEarly else CalledOff, finished := true, failed := true));
        r := Value(Ended);
      } else {
        r := CodeOrSync(flow, since, stage, reply);
      }
    }

    /** Phase 2: agrees, and reads the stage until there is a code. */
    method FindCode(flow: Flow, from: Token) returns (r: Outcome<Round>)
      requires Standing().Fine? && Beginning(w, flow, from) && openedHere == w.run.asked.Some? && !stopped
      modifies this
      ensures r.Pending? ==> Waits()
      ensures Onward()
      ensures r.Failed? ==> Broke(w, r.error).Fine?
      ensures r.Value? && r.value.Have? ==> Found(w, flow, r.value.code, r.value.since).Fine?
      ensures r.Value? && !r.value.Have? ==> Rests()
    {
      var _ :- Agree(flow);
      var since := from;
      while !stopped
        invariant Onward() && Looking(w, flow, since) && openedHere == w.run.asked.Some?
        decreases |script| - at
      {
        var step :- Look(flow, since);
        if !step.Again? {
          return Value(step);
        }
        since := step.since;
      }
      r := Value(Ended);
    }

    // ---- phase 3: the person's one decision ----

    /** The confirmation, and the drain that carries it. */
    method SendConfirmation(flow: Flow) returns (r: Outcome<()>)
      requires Standing().Fine? && Assess(w, Called(ConfirmScan(flow))).Fine? && !confirmRequested
      requires !CallingOff(w.run) && w.run.created
      modifies this
      ensures r.Pending? ==> Waits()
      ensures Onward() && w.run == old(w.run)
      ensures r.Failed? ==> Stuck(w.wire, r.error)
      ensures r.Value? ==> Draining(w.wire, []) && w.wire.task.ConfirmScan?
    {
      var _ :- Await(ConfirmScan(flow));
      var _ :- Pump();
      r := Value(());
    }

    method ConfirmScanned(flow: Flow) returns (r: Outcome<()>)
      requires Standing().Fine? && Live(w, flow) && Assess(w, Called(ConfirmScan(flow))).Fine? && !confirmRequested
      requires Bound(w.run) && w.run.view.awaiting
      modifies this
      ensures r.Pending? ==> Waits()
      ensures Onward()
      ensures r.Failed? ==> Broke(w, r.error).Fine?
      ensures r.Value? ==> MaySync(w, flow, old(w.run.token)) && !w.run.view.awaiting
    {
      var _ :- SendConfirmation(flow);
      MaySayConfirmed(w, flow);
      Update(state.(awaiting := false, headline := ConfirmedWaiting));
      r := Value(());
    }

    /** Asks the person, and sends their answer if they gave it already. */
    method AskThePerson(flow: Flow, ghost reply: Reply) returns (r: Outcome<()>)
      requires Standing().Fine? && Live(w, flow) && Shown(w, flow, reply) && w.wire.duty.AskPerson? && reply.stage.CodeScanned?
      requires Bound(w.run)
      modifies this
      ensures r.Pending? ==> Waits()
      ensures Onward()
      ensures r.Failed? ==> Broke(w, r.error).Fine?
      ensures r.Value? ==> MaySync(w, flow, old(w.run.token))
    {
      MayAskPerson(w, flow, reply);
      Update(state.(awaiting := true, headline := Scanned));
      if confirmRequested {
        confirmRequested := false;
        var _ :- ConfirmScanned(flow);
      } else {
        MaySyncOn(w, flow, reply);
      }
      r := Value(());
    }

    /** The sync and the pause between two reads. */
    method Linger(flow: Flow, since: Token) returns (r: Outcome<Token>)
      requires Standing().Fine? && MaySync(w, flow, since)
      modifies this
      ensures r.Pending? ==> Waits()
      ensures Onward() && (!r.Pending? ==> old(at) < at)
      ensures r.Failed? ==> Broke(w, r.error).Fine?
      ensures r.Value? ==> Deciding(w, flow, r.value)
    {
      var next :- SyncOnce(since);
      MayPoll(w, flow);
      ghost var before := w;
      var slept :- Await(Sleep);
      Paused(before, flow, w.world, slept);
      r := Value(next);
    }

    /** One turn of the loop of phase 3. */
    method Decide(flow: Flow, since: Token) returns (r: Outcome<Round>)
      requires Standing().Fine? && Deciding(w, flow, since) && !stopped
      modifies this
      ensures r.Pending? ==> Waits()
      ensures Onward() && (!r.Pending? ==> old(at) < at)
      ensures r.Failed? ==> Broke(w, r.error).Fine?
      ensures r.Value? ==> r.value.Again? || r.value.Ended?
      ensures r.Value? && r.value.Again? ==> Deciding(w, flow, r.value.since)
      ensures r.Value? && r.value.Ended? ==> w.run.view.finished && w.wire.pending.None?
    {
      var reply :- ReadAndShow(flow);
      var stage := reply.stage;
      if stage.CodeScanned? {
        var _ :- AskThePerson(flow, reply);
      } else if stage.Done? || stage.Cancelled? {
        MayEnd(w, flow, reply);
        Update(if stage.Done?
               then state.(headline := Verified, awaiting := false, finished := true, failed := false, code := None)
               else state.(headline := CalledOff, awaiting := false, finished := true, failed := true, code := None));
        return Value(Ended);
      } else {
        MaySyncOn(w, flow, reply);
      }
      var next :- Linger(flow, since);
      r := Value(Again(next));
    }

    /** Phase 3: reads the stage until the flow is over. */
    method AwaitScan(flow: Flow, from: Token) returns (r: Outcome<()>)
      requires Standing().Fine? && Deciding(w, flow, from)
      modifies this
      ensures r.Pending? ==> Waits()
      ensures Onward()
      ensures r.Failed? ==> Broke(w, r.error).Fine?
      ensures r.Value? ==> Rests()
    {
      var since := from;
      while !stopped
        invariant Onward() && Deciding(w, flow, since)
        decreases |script| - at
      {
        var step :- Decide(flow, since);
        if step.Ended? {
          return Value(());
        }
        since := step.since;
      }
      r := Value(());
    }

    // ---- the run ----

    /** The run without its outer handler. */
    method Body() returns (r: Outcome<()>)
      requires Standing().Fine? && w == FIRST_WATCH && Announced() && !openedHere
      modifies this
      ensures r.Pending? ==> Waits()
      ensures Standing().Fine?
      ensures r.Failed? ==> Broke(w, r.error).Fine?
      ensures r.Value? ==> Rests()
    {
      var _ :- Prepare();
      var since :- FindFlow();
      IdleFinds(w);
      if stopped || announced.None? {
        return Value(());
      }
      askRequested := false;
      var flow := announced.value;
      MayShowFlow(w, flow);
      Update(state.(flow := Some(flow)));
      var step :- FindCode(flow, since);
      if step.Have? {
        MayShowCode(w, flow, step.code);
      }
      if stopped || !step.Have? {
        return Value(());
      }
      Update(state.(code := Some(step.code), headline := PointCamera));
      r := AwaitScan(flow, step.since);
    }

    /** The run, its outer handler, and the end of its subscription. */
    method Run() returns (settled: bool)
      requires Standing().Fine? && w == FIRST_WATCH && Announced() && !openedHere
      modifies this
      ensures Logged().Fine? && (if settled then Rests() else Waits())
    {
      var r := Body();
      if r.Failed? {
        MayStop(w, r.error);
        Update(state.(headline := StoppedOnError(r.error), finished := true, failed := true));
      }
      subscribed := false;
      settled := !r.Pending?;
    }
  }

  /** What a run against a script leaves behind: its whole course, which keeps
      the rules. A run that came to an end has shown a finished state, unless it
      was stopped; one that did not has a call outstanding. */
  ghost predicate Lawful(script: seq<Turn>, log: seq<Event>, settled: bool, known: seq<Watch>)
  {
    && Obeys(log, known) && Traced(script, log, known)
    && var w := known[|log|];
       && Step(script, w).None?
       && (settled <==> w.wire.pending.None?)
       && (settled ==> w.run.view.finished || Happened(Stops) in log)
  }

  /** Every run, against every environment. */
  method Start(script: seq<Turn>) returns (log: seq<Event>, settled: bool)
    ensures exists known :: Lawful(script, log, settled, known)
  {
    var run := new ScannedCodeRun(script);
    settled := run.Run();
    log := run.log;
    StopWasPressed(log, run.known);
    assert Lawful(script, log, settled, run.known);
  }
}
