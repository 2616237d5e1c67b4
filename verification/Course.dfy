/** What a run does next, and what a script makes of it.

    A run has no choices of its own: what it has seen settles whether it calls,
    shows a state, or rests. While a call is outstanding the environment moves,
    and here the environment is a script. Each call takes the next turn of it:
    what happens meanwhile, and how the call settles. A script that has run out
    leaves the last call outstanding for ever, so the logs of all scripts are
    the prefixes of all runs.
  */
module Course {
  import opened Options
  import opened Protocol

  datatype Settlement = Resolves(reply: Reply) | Rejects(error: Error)

  datatype Turn = Turn(meanwhile: seq<Happening>, settles: Settlement)

  // ---- what the run does ----

  /** With no call outstanding: the next call or state, or nothing more. */
  function Due(w: Watch): Option<Event>
  {
    var run, wire := w.run, w.wire;
    if run.view.finished then None
    else if Failure(wire).Some? && !Handled(run, wire) then Some(Published(Stopping(run.view, Failure(wire).value)))
    else if CallingOff(run) then Some(DueCallingOff(run, wire))
    else match wire.last
      case Nothing => Some(Called(Create))
      case Threw(Cancel(flow), _) => Some(Called(ReadStage(flow)))
      case Threw(_, error) =>
        Some(if error.OtherKind? then Published(Failing(run.view, CannotShow(error.kind))) else Called(Sync(run.token)))
      case Answered(call, reply) => DueAfter(w, call, reply)
  }

  function Failing(view: View, headline: Headline): View
  {
    view.(headline := headline, finished := true, failed := true)
  }

  /** The state of the outer handler. */
  function Stopping(view: View, error: Error): View
  {
    Failing(view, StoppedOnError(error))
  }

  /** The end of phase 3, whose state also takes the code away. */
  function Ending(view: View, headline: Headline): View
  {
    view.(headline := headline, awaiting := false, finished := true, failed := !headline.Verified?, code := None)
  }

  /** Delivering a call-off: drains and pauses, whatever the drains meet. */
  function DueCallingOff(run: Run, wire: Wire): Event
  {
    match wire.last
    case Answered(Put(request), reply) => DueReport(request, reply.status)
    case Answered(Cancel(_), _) => Called(Take)
    case Answered(Sleep, _) => Called(Take)
    case Answered(ReadStage(_), reply) =>
      if wire.stageShown then Called(Take) else Published(run.view.(stage := Some(reply.stage)))
    case _ =>
      if Drained(wire) then Published(Failing(run.view, Unanswered(true)))
      else if wire.last.Answered? && wire.batch != [] && Sendable(wire.batch[0]) then Called(Put(wire.batch[0]))
      else if wire.attempts < CANCEL_PUMP_ATTEMPTS then Called(Sleep)
      else Published(Failing(run.view, Unanswered(false)))
  }

  function DueReport(request: Request, status: int): Event
  {
    Called(if Success(status) then MarkSent(request.id) else MarkFailed(request.id, status))
  }

  function DueAfter(w: Watch, call: Call, reply: Reply): Option<Event>
  {
    var run, wire := w.run, w.wire;
    match call
    case Create =>
      if !w.world.listening then Some(Subscribed)
      else if run.view.headline.Starting? then Some(Published(run.view.(headline := PublishingKeys)))
      else Some(Called(Take))
    case Sync(_) => Some(Called(Receive))
    case Put(request) => Some(DueReport(request, reply.status))
    case ReadStage(flow) => DueAfterRead(w, flow, reply)
    case GetCode(_) =>
      if run.codeShown then DueReading(w)
      else if w.world.stopped then None
      else Some(Published(run.view.(code := run.code, headline := PointCamera)))
    case Sleep => DueReading(w)
    case _ =>
      if OwesPump(wire) then Some(Called(Take))
      else if wire.batch != [] then Some(Called(Put(wire.batch[0])))
      else DueDrained(w)
  }

  /** The top of the loops of phases 2 and 3. */
  function DueReading(w: Watch): Option<Event>
  {
    if w.world.stopped || w.run.view.flow.None? then None else Some(Called(ReadStage(w.run.view.flow.value)))
  }

  /** The top of the loop of phase 1. */
  function DueFinding(w: Watch): Option<Event>
  {
    if FlowOf(w).Some? || w.world.stopped then DueBeginning(w)
    else if w.world.askHeld then Some(Called(Ask))
    else Some(Called(Sync(w.run.token)))
  }

  /** The start of phase 2. */
  function DueBeginning(w: Watch): Option<Event>
  {
    if w.world.stopped then None
    else if w.run.view.flow.None? then Some(Published(w.run.view.(flow := FlowOf(w))))
    else Some(Called(ReadStage(w.run.view.flow.value)))
  }

  /** After a drain, by what it was for. */
  function DueDrained(w: Watch): Option<Event>
  {
    var run := w.run;
    match w.wire.task
    case Create =>
      if run.view.headline.PublishingKeys? then Some(Published(run.view.(headline := Waiting))) else DueFinding(w)
    case Ask => if run.view.headline.Waiting? then Some(Published(run.view.(headline := Asked))) else DueBeginning(w)
    case Receive =>
      if run.codeShown then Some(Called(Sleep)) else if run.view.flow.None? then DueFinding(w) else DueReading(w)
    case ConfirmScan(_) =>
      if run.view.awaiting then Some(Published(run.view.(awaiting := false, headline := ConfirmedWaiting)))
      else Some(Called(Sync(run.token)))
    case _ => DueReading(w)
  }

  /** After a stage was read: what it is read for, and what it calls for. */
  function DueAfterRead(w: Watch, flow: Flow, reply: Reply): Option<Event>
  {
    var run, wire := w.run, w.wire;
    if run.looks == 1 then
      if reply.stage.Requested? && run.asked.None? then Some(Called(Accept(flow))) else DueReading(w)
    else if !wire.stageShown then Some(Published(run.view.(stage := Some(reply.stage))))
    else if run.callOff.Overtaken? then DueReading(w)
    else if run.code.None? then Some(DueUncoded(run, flow, reply))
    else Some(DueCoded(run, wire, flow, reply))
  }

  function DueUncoded(run: Run, flow: Flow, reply: Reply): Event
  {
    match reply.stage
    case Requested => Called(if run.asked.Some? && reply.late then Cancel(flow) else Sync(run.token))
    case Done => Published(Failing(run.view, DoneEarly))
    case Cancelled => Published(Failing(run.view, CalledOff))
    case Ready => Called(GetCode(flow))
    case Started => Called(GetCode(flow))
    case _ => Called(Sync(run.token))
  }

  function DueCoded(run: Run, wire: Wire, flow: Flow, reply: Reply): Event
  {
    if wire.duty.AskPerson? then Published(run.view.(awaiting := true, headline := Scanned))
    else if wire.duty.ConfirmNow? then Called(ConfirmScan(flow))
    else if reply.stage.Done? then Published(Ending(run.view, Verified))
    else if reply.stage.Cancelled? then Published(Ending(run.view, CalledOff))
    else Called(Sync(run.token))
  }

  // ---- what the environment does ----

  function Refusal(library: Library, answer: Reply): Request
  {
    Request(library.nextId, ToDevice, answer.readable)
  }

  /** What the library hands over: a drain all that is outstanding, and the
      calling off of a flow the refusal it queues. */
  function Handed(library: Library, call: Call, answer: Reply): seq<Request>
  {
    match call
    case Take => library.queue
    case Cancel(_) => [Refusal(library, answer)]
    case _ => []
  }

  function Settling(library: Library, call: Call, settles: Settlement): Event
  {
    match settles
    case Resolves(answer) => Resolved(call, answer.(batch := Handed(library, call, answer)))
    case Rejects(error) => Rejected(call, error)
  }

  /** While `call` is outstanding: the rest of the turn's happenings, then how
      the call settles; nothing once the script has run out. */
  function Comes(script: seq<Turn>, w: Watch, call: Call): Option<Event>
  {
    if w.wire.turns >= |script| then None
    else
      var turn := script[w.wire.turns];
      Some(if w.world.heard < |turn.meanwhile| then Happened(turn.meanwhile[w.world.heard])
           else Settling(w.world.library, call, turn.settles))
  }

  /** The next event of a run against a script, if there is one. */
  function Step(script: seq<Turn>, w: Watch): Option<Event>
  {
    match w.wire.pending
    case Some(call) => Comes(script, w, call)
    case None => Due(w)
  }

  /** Every event of the log is the next one where it stands. */
  ghost predicate Traced(script: seq<Turn>, log: seq<Event>, known: seq<Watch>)
  {
    && |known| == |log| + 1
    && known[0] == FIRST_WATCH
    && forall n {:trigger log[n]} :: 0 <= n < |log| ==>
         Step(script, known[n]) == Some(log[n]) && known[n + 1] == Observe(known[n], log[n])
  }

  lemma TracedMore(script: seq<Turn>, log: seq<Event>, known: seq<Watch>, e: Event)
    requires Traced(script, log, known) && Step(script, known[|log|]) == Some(e)
    ensures Traced(script, log + [e], known + [Observe(known[|log|], e)])
  {}

  lemma Proceeds(script: seq<Turn>, log: seq<Event>, known: seq<Watch>, n: nat)
    requires Traced(script, log, known) && n < |log|
    ensures Step(script, known[n]) == Some(log[n]) && known[n + 1] == Observe(known[n], log[n])
  {
    assert log[n] == log[n];
  }

  /** Of two courses of one script, the shorter is the start of the other. */
  lemma {:induction false} OneCourse(script: seq<Turn>, log: seq<Event>, known: seq<Watch>,
                                     log': seq<Event>, known': seq<Watch>, n: nat)
    requires Traced(script, log, known) && Traced(script, log', known') && n <= |log| && n <= |log'|
    ensures log[..n] == log'[..n] && known[n] == known'[n]
  {
    if n > 0 {
      OneCourse(script, log, known, log', known', n - 1);
      Proceeds(script, log, known, n - 1);
      Proceeds(script, log', known', n - 1);
      assert log[..n] == log[..n - 1] + [log[n - 1]] && log'[..n] == log'[..n - 1] + [log'[n - 1]];
    }
  }

  lemma NoLonger(script: seq<Turn>, log: seq<Event>, known: seq<Watch>, log': seq<Event>, known': seq<Watch>)
    requires Traced(script, log, known) && Traced(script, log', known') && Step(script, known'[|log'|]).None?
    ensures |log| <= |log'|
  {
    if |log'| < |log| {
      Proceeds(script, log, known, |log'|);
      OneCourse(script, log, known, log', known', |log'|);
    }
  }

  /** A script has one course: what a run against it leaves behind is settled
      by the script. */
  lemma CourseIsSettled(script: seq<Turn>, log: seq<Event>, known: seq<Watch>, log': seq<Event>, known': seq<Watch>)
    requires Traced(script, log, known) && Step(script, known[|log|]).None?
    requires Traced(script, log', known') && Step(script, known'[|log'|]).None?
    ensures log == log' && known[|log|] == known'[|log'|]
  {
    NoLonger(script, log, known, log', known');
    NoLonger(script, log', known', log, known);
    OneCourse(script, log, known, log', known', |log|);
    assert log == log[..|log|] && log' == log'[..|log'|];
  }
}
