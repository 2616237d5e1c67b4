/** In what order a run calls and shows: what every call and every state comes
    after, stated of the log, for the courses of all scripts.
  */
module ScannedCodeOrder {
  import opened Options
  import opened Protocol
  import opened Course
  import opened ScannedCodeEndings
  import opened ScannedCodeLaws
  import opened ScannedCodeOrigins
  import opened ScannedCodeRun

  predicate OfADrain(c: Call) { c.Take? || c.Put? || c.MarkSent? || c.MarkFailed? }

  /** The latest call that is none of a drain's. */
  function Task(log: seq<Event>, n: nat): Option<Call>
    requires n <= |log|
  {
    if n == 0 then None
    else if log[n - 1].Called? && !OfADrain(log[n - 1].call) then Some(log[n - 1].call)
    else Task(log, n - 1)
  }

  /** The latest state shown. */
  function Screen(log: seq<Event>, n: nat): View
    requires n <= |log|
  {
    if n == 0 then FIRST_VIEW
    else if log[n - 1].Published? then log[n - 1].view
    else Screen(log, n - 1)
  }

  /** What the observer makes of both. */
  ghost predicate Seen(w: Watch, task: Option<Call>, screen: View)
  {
    && w.run.view == screen && (task.None? <==> w.wire.last.Nothing? && w.wire.pending.None?)
    && (task.Some? ==> w.wire.task == task.value)
  }

  /** What settled last, drains aside, is what was called last. */
  ghost predicate Settles(wire: Wire)
  {
    match wire.pending
    case Some(c) => OfADrain(c) || wire.task == c
    case None =>
      match wire.last
      case Nothing => true
      case Answered(c, _) => OfADrain(c) || wire.task == c
      case Threw(c, _) => OfADrain(c) || wire.task == c
  }

  /** When there is a code, and where it shows. */
  ghost predicate Codes(w: Watch)
  {
    && (w.run.codeShown ==> w.run.code.Some?)
    && (w.run.looks <= 1 || !w.run.callOff.NotCalled? ==> w.run.code.None?)
    && (w.wire.pending.None? && w.wire.last.Answered? && w.wire.last.call.GetCode? ==> w.run.code.Some?)
    && (!w.run.view.finished ==> (w.run.codeShown <==> w.run.view.code.Some?))
    && (w.wire.duty.ConfirmNow? ==> w.run.view.awaiting)
    && (w.wire.pending.Some? && w.wire.pending.value.GetCode? ==> w.run.looks > 1 && w.run.callOff.NotCalled? && w.run.view.flow.Some?)
    && (w.run.code.Some? ==> w.run.view.flow.Some?)
    && (w.wire.pending.Some? && w.wire.pending.value.Cancel? ==> w.run.code.None?)
    && (w.wire.last.Answered? && w.wire.last.call.ReadStage? ==> w.run.looks > 0 && !(w.run.callOff.Moved? && w.wire.pending.None?))
    && (w.run.view.flow.Some? ==> FlowOf(w).Some?)
    && (w.run.looks == 0 ==> w.run.callOff.NotCalled? && !(w.wire.pending.Some? && w.wire.pending.value.Cancel?))
    && (w.wire.pending.Some? && w.wire.pending.value.ReadStage? ==>
          w.run.view.flow == Some(w.wire.pending.value.flow) && w.wire.batch == [] && w.wire.duty.Free? && (w.run.code.Some? ==> w.run.codeShown))
  }

  /** Until the machine is made nothing is shown or heard. */
  ghost predicate AtFirst(w: Watch)
  {
    && w.wire.batch == [] && w.wire.task.Create? && !w.world.listening
    && (w.wire.last.Nothing? || (w.wire.last.Threw? && w.wire.last.call.Create? && w.wire.pending.None?))
    && (w.wire.pending.Some? ==> w.wire.pending == Some(Create))
    && (!w.run.view.finished ==> w.run == FIRST_WATCH.run) && w.run.callOff.NotCalled?
  }

  /** The machine is made, a drain is under way, the run is calling its flow off. */
  ghost predicate Phases(w: Watch)
  {
    && (if w.run.created then !w.wire.last.Nothing? && w.wire.pending != Some(Create) else AtFirst(w))
    && (CallingOff(w.run) ==> w.wire.task.Cancel? || w.wire.task.ReadStage? || w.wire.task.Sleep?)
    && (CallingOff(w.run) && w.wire.pending.Some? ==> w.wire.pending.value.Sleep? || OfADrain(w.wire.pending.value))
    && (w.run.code.Some? || (w.wire.pending.Some? && w.wire.pending.value.GetCode?) ==> AfterTheCode(w.wire.task))
    && (!CallingOff(w.run) && InADrain(w.wire) ==> IsDrained(w.wire.task))
    && (!CallingOff(w.run) && w.wire.task.Sleep? ==> w.run.codeShown)
  }

  predicate AfterTheCode(task: Call)
  {
    task.GetCode? || task.ReadStage? || task.ConfirmScan? || task.Sync? || task.Receive? || task.Sleep?
  }

  /** A call that a drain follows. */
  predicate IsDrained(task: Call) { task.Create? || task.Ask? || task.Accept? || task.Receive? || task.ConfirmScan? }

  predicate InADrain(wire: Wire)
  {
    match wire.pending
    case Some(c) => OfADrain(c)
    case None => wire.last.Answered? && OfADrain(wire.last.call)
  }

  /** The person is asked only while the code shows, and the first words stand
      until the machine is made. */
  ghost predicate Screens(w: Watch)
  {
    && (!w.run.view.finished ==> !w.run.view.failed && (w.run.view.awaiting ==> w.run.view.code.Some?))
    && (w.run.view.headline.Starting? ==> w.run.view == FIRST_VIEW && w.wire.task.Create? && !InADrain(w.wire))
    && (w.run.view.finished || Words(w.wire.task, w.run.view))
  }

  /** The words that go with a call. */
  predicate Words(task: Call, screen: View)
  {
    match task
    case Create => screen.headline.Starting? || screen.headline.PublishingKeys? || screen.headline.Waiting?
    case Ask => screen.headline.Waiting? || screen.headline.Asked?
    case ConfirmScan(_) => screen.flow.Some? && (screen.awaiting || screen.headline.ConfirmedWaiting?)
    case Sync(_) => screen.flow.Some? || screen.headline.Waiting?
    case Receive => screen.flow.Some? || screen.headline.Waiting?
    case _ => screen.flow.Some?
  }

  ghost function Sound(w: Watch): Verdict
  {
    if Settles(w.wire) && Codes(w) && Phases(w) && Screens(w) then Fine else Breach
  }

  lemma SoundCall(w: Watch, c: Call)
    requires Due(w) == Some(Called(c)) && Judge(w, Called(c)).Fine? && Sound(w).Fine?
    ensures Sound(AfterCall(w, c)).Fine?
  {}

  lemma SoundReply(w: Watch, c: Call, reply: Reply)
    requires w.wire.pending == Some(c) && Sound(w).Fine?
    ensures Sound(AfterReply(w, c, reply)).Fine?
  {}

  lemma SoundThrow(w: Watch, c: Call, error: Error)
    requires w.wire.pending == Some(c) && Sound(w).Fine?
    ensures Sound(AfterThrow(w, c, error)).Fine?
  {}

  lemma SoundPublish(w: Watch, v: View)
    requires Due(w) == Some(Published(v)) && Judge(w, Published(v)).Fine? && Sound(w).Fine?
    ensures Sound(AfterPublish(w, v)).Fine?
  {}

  lemma SoundTold(w: Watch, world: World)
    requires Sound(w).Fine? && (w.world.signalled.Some? ==> world.signalled.Some?)
    requires world.listening ==> w.world.listening || w.run.created
    ensures Sound(w.(world := world)).Fine?
  {}

  lemma SoundStep(script: seq<Turn>, w: Watch, e: Event)
    requires Step(script, w) == Some(e) && Judge(w, e).Fine? && Sound(w).Fine?
    ensures Sound(Observe(w, e)).Fine?
  {
    match e
    case Called(c) => SoundCall(w, c);
    case Resolved(c, reply) => SoundReply(w, c, reply);
    case Rejected(c, error) => SoundThrow(w, c, error);
    case Published(v) => SoundPublish(w, v);
    case Subscribed => SoundTold(w, w.world.(listening := true));
    case Happened(h) => SoundTold(w, Told(w.world, h));
  }

  lemma {:induction false} SoundSoFar(script: seq<Turn>, log: seq<Event>, known: seq<Watch>, n: nat)
    requires Obeys(log, known) && Traced(script, log, known) && n <= |log|
    ensures Sound(known[n]).Fine?
  {
    if n > 0 {
      SoundSoFar(script, log, known, n - 1);
      Follows(log, known, n - 1);
      Proceeds(script, log, known, n - 1);
      SoundStep(script, known[n - 1], log[n - 1]);
    }
  }

  /** What is known of an event where it stands. */
  lemma At(script: seq<Turn>, log: seq<Event>, known: seq<Watch>, n: nat)
    requires Obeys(log, known) && Traced(script, log, known) && n < |log|
    ensures Step(script, known[n]) == Some(log[n]) && Judge(known[n], log[n]).Fine? && Sound(known[n]).Fine?
    ensures known[n + 1] == Observe(known[n], log[n])
  {
    Follows(log, known, n);
    Proceeds(script, log, known, n);
    SoundSoFar(script, log, known, n);
  }

  lemma SeenStep(w: Watch, e: Event, task: Option<Call>, screen: View)
    requires Judge(w, e).Fine? && Seen(w, task, screen)
    requires e.Called? && OfADrain(e.call) ==> !w.wire.last.Nothing?
    ensures Seen(Observe(w, e), if e.Called? && !OfADrain(e.call) then Some(e.call) else task, if e.Published? then e.view else screen)
  {}

  lemma TaskMore(log: seq<Event>, n: nat)
    requires n < |log|
    ensures Task(log, n + 1) == if log[n].Called? && !OfADrain(log[n].call) then Some(log[n].call) else Task(log, n)
    ensures Screen(log, n + 1) == if log[n].Published? then log[n].view else Screen(log, n)
  {}

  lemma SeenNext(script: seq<Turn>, log: seq<Event>, known: seq<Watch>, n: nat)
    requires Obeys(log, known) && Traced(script, log, known) && n < |log|
    requires Seen(known[n], Task(log, n), Screen(log, n))
    ensures Seen(known[n + 1], Task(log, n + 1), Screen(log, n + 1))
  {
    At(script, log, known, n);
    SeenStep(known[n], log[n], Task(log, n), Screen(log, n));
    TaskMore(log, n);
  }

  lemma {:induction false} SeenSoFar(script: seq<Turn>, log: seq<Event>, known: seq<Watch>, n: nat)
    requires Obeys(log, known) && Traced(script, log, known) && n <= |log|
    ensures Seen(known[n], Task(log, n), Screen(log, n))
  {
    if n > 0 {
      SeenSoFar(script, log, known, n - 1);
      SeenNext(script, log, known, n - 1);
    }
  }

  // ---- calls ----

  /** What a call comes after, drains aside, with `screen` on the screen. Phase 1
      syncs until it asks or there is a flow; phase 2 reads the stage, and syncs
      unless that calls for more; phase 3 pauses after each sync as well. */
  predicate MayFollow(task: Option<Call>, c: Call, screen: View)
  {
    if task.None? then c.Create?
    else
      var before := task.value;
      match c
      case Create => false
      case Ask => (before.Create? || before.Receive?) && screen.flow.None? && screen.headline.Waiting?
      case Sync(_) =>
        || ((before.Create? || before.Receive?) && screen.flow.None? && screen.headline.Waiting?)
        || before.ReadStage? || before.GetCode? || (before.ConfirmScan? && screen.headline.ConfirmedWaiting?)
      case Receive => before.Sync?
      case ReadStage(_) =>
        if screen.code.Some? then before.GetCode? || before.Sleep?
        else
          || (before.Create? && screen.headline.Waiting?) || (before.Ask? && screen.headline.Asked?)
          || before.Accept? || before.ReadStage? || before.Cancel? || before.Receive?
      case Accept(_) => before.ReadStage?
      case Cancel(_) => before.ReadStage? && screen.code.None?
      case GetCode(_) => before.ReadStage? && screen.code.None?
      case ConfirmScan(_) => before.ReadStage? && screen.awaiting
      case Sleep => if before.Receive? then screen.code.Some? else before.Cancel? || before.ReadStage? || before.Sleep?
      case _ => true
  }

  lemma DueFollows(w: Watch, c: Call, task: Option<Call>, screen: View)
    requires Due(w) == Some(Called(c)) && Judge(w, Called(c)).Fine? && Sound(w).Fine? && Seen(w, task, screen)
    ensures MayFollow(task, c, screen)
  {}

  lemma CallsInOrder(script: seq<Turn>, log: seq<Event>, known: seq<Watch>, i: nat)
    requires Obeys(log, known) && Traced(script, log, known) && i < |log| && log[i].Called?
    ensures MayFollow(Task(log, i), log[i].call, Screen(log, i))
  {
    At(script, log, known, i);
    SeenSoFar(script, log, known, i);
    DueFollows(known[i], log[i].call, Task(log, i), Screen(log, i));
  }

  // ---- states ----

  /** What a state adds to the one before it, and after which call it is due. */
  predicate MayShow(task: Option<Call>, v: View, was: View)
  {
    && task.Some?
    && if v.finished then MayEnd(task.value, v, was)
       else
         // the stage a read gave, and the flow once there is one
         || (v == was.(stage := v.stage) && task.value.ReadStage?)
         || (v == was.(flow := v.flow) && was.flow.None? && (task.value.Create? || task.value.Ask? || task.value.Receive?))
         || match v.headline
            case PublishingKeys => was == FIRST_VIEW && v == was.(headline := v.headline) && task.value.Create?
            case Waiting => was.headline.PublishingKeys? && v == was.(headline := v.headline) && task.value.Create?
            case Asked => was.headline.Waiting? && v == was.(headline := v.headline) && task.value.Ask?
            case PointCamera => was.code.None? && v.code.Some? && v == was.(headline := v.headline, code := v.code) && task.value.GetCode?
            case Scanned => was.code.Some? && v == was.(headline := v.headline, awaiting := true) && task.value.ReadStage?
            case ConfirmedWaiting =>
              was.awaiting && v == was.(headline := v.headline, awaiting := false) && task.value.ConfirmScan?
            case _ => false
  }

  /** The last state: it takes the code away when phase 3 ends it, and otherwise
      leaves what is on the screen. */
  predicate MayEnd(task: Call, v: View, was: View)
  {
    && !was.finished
    && match v.headline
       case Verified => v == View(Verified, was.flow, None, was.stage, false, true, false) && task.ReadStage? && was.code.Some?
       case CalledOff => v == View(CalledOff, was.flow, None, was.stage, false, true, true) && task.ReadStage?
       case DoneEarly => v == was.(headline := v.headline, finished := true, failed := true) && task.ReadStage? && was.code.None?
       case CannotShow(_) => v == was.(headline := v.headline, finished := true, failed := true) && task.GetCode?
       case Unanswered(_) =>
         && v == was.(headline := v.headline, finished := true, failed := true)
         && (task.Cancel? || task.ReadStage? || task.Sleep?) && was.code.None?
       case StoppedOnError(_) => v == was.(headline := v.headline, finished := true, failed := true)
       case _ => false
  }

  lemma DueShows(w: Watch, v: View, task: Option<Call>, screen: View)
    requires Due(w) == Some(Published(v)) && Judge(w, Published(v)).Fine? && Sound(w).Fine? && Seen(w, task, screen)
    ensures MayShow(task, v, screen)
  {}

  lemma StatesInOrder(script: seq<Turn>, log: seq<Event>, known: seq<Watch>, i: nat)
    requires Obeys(log, known) && Traced(script, log, known) && i < |log| && log[i].Published?
    ensures MayShow(Task(log, i), log[i].view, Screen(log, i))
  {
    At(script, log, known, i);
    SeenSoFar(script, log, known, i);
    DueShows(known[i], log[i].view, Task(log, i), Screen(log, i));
  }

  // ---- what a stage calls for ----

  /** What is known where a stage is read. */
  lemma ReadAt(script: seq<Turn>, log: seq<Event>, settled: bool, known: seq<Watch>, k: nat)
    requires Lawful(script, log, settled, known) && k < |log| && StageRead(log[k])
    ensures known[k].wire.pending == Some(ReadStage(log[k].call.flow)) && Sound(known[k]).Fine? && !known[k].run.view.finished
    ensures known[k].run.looks == Count(log, k, StageRead) && known[k].run.view == Screen(log, k)
    ensures (known[k].run.asked.Some? <==> Had(log, k, AskAnswered)) && (known[k].world.held <==> PressHeld(log, k))
    ensures known[k].run.callOff.Moved? <==> IsMoved(LatestSettled(log, k))
    ensures known[k + 1] == AfterReply(known[k], ReadStage(log[k].call.flow), log[k].reply) && known[k + 1].wire.pending.None?
  {
    At(script, log, known, k);
    LooksSoFar(log, known, k);
    AskedSoFar(log, known, k);
    SeenSoFar(script, log, known, k);
    HeldSoFar(log, known, k);
    MovedSoFar(log, known, k);
    SettledSoFar(log, known, k);
    OutstandingIsUnfinished(log, known, k);
  }

  /** A peer's flow that the first read finds waiting for an answer is answered at
      once; a flow asked for from here, or one already agreed to, is not. */
  lemma FirstRead(script: seq<Turn>, log: seq<Event>, settled: bool, known: seq<Watch>, k: nat)
    requires Lawful(script, log, settled, known) && k < |log| && StageRead(log[k]) && Count(log, k, StageRead) == 0
    ensures k + 1 < |log| && log[k + 1] == Called(Accept(log[k].call.flow)) <==>
      log[k].reply.stage.Requested? && !Had(log, k, AskAnswered)
  {
    ReadAt(script, log, settled, known, k);
    AfterFirstRead(known[k], known[k + 1], log[k].call.flow, log[k].reply);
    DueHappens(script, log, settled, known, k + 1);
  }

  lemma AfterFirstRead(w: Watch, after: Watch, flow: Flow, reply: Reply)
    requires w.wire.pending == Some(ReadStage(flow)) && Sound(w).Fine? && !w.run.view.finished && w.run.looks == 0
    requires after == AfterReply(w, ReadStage(flow), reply)
    ensures Due(after) == Some(Called(Accept(flow))) <==> reply.stage.Requested? && w.run.asked.None?
  {}

  /** The first thing after a stage was shown while no code was: an unanswered flow
      of this side's is called off, one that is over ends the run, one that is
      agreed to has its code asked for, and anything else takes another sync. */
  ghost predicate LooksFor(e: Event, flow: Flow, reply: Reply, asked: bool, shown: View)
  {
    match reply.stage
    case Requested => if asked && reply.late then e == Called(Cancel(flow)) else e.Called? && e.call.Sync?
    case Ready => e == Called(GetCode(flow))
    case Started => e == Called(GetCode(flow))
    case Done => e == Published(shown.(headline := DoneEarly, finished := true, failed := true))
    case Cancelled => e == Published(shown.(headline := CalledOff, finished := true, failed := true))
    case _ => e.Called? && e.call.Sync?
  }

  /** And while a code was: the person is asked when it was scanned, the flow that
      is over ends the run, and anything else takes another sync. */
  ghost predicate WaitsFor(e: Event, stage: Stage, shown: View)
  {
    match stage
    case CodeScanned => e == Published(shown.(headline := Scanned, awaiting := true))
    case Done => e == Published(View(Verified, shown.flow, None, shown.stage, false, true, false))
    case Cancelled => e == Published(View(CalledOff, shown.flow, None, shown.stage, false, true, true))
    case _ => e.Called? && e.call.Sync?
  }

  lemma ShowsTheRead(w: Watch, flow: Flow, reply: Reply)
    requires w.wire.pending == Some(ReadStage(flow)) && Sound(w).Fine? && !w.run.view.finished && w.run.looks > 0
    ensures var read := AfterReply(w, ReadStage(flow), reply);
      read.wire.pending.None? && Due(read) == Some(Published(w.run.view.(stage := Some(reply.stage))))
  {}

  lemma AfterRead(w: Watch, flow: Flow, reply: Reply)
    requires w.wire.pending == Some(ReadStage(flow)) && Sound(w).Fine? && !w.run.view.finished
    requires w.run.looks > 0 && !w.run.callOff.Moved?
    ensures var read, shown := AfterReply(w, ReadStage(flow), reply), w.run.view.(stage := Some(reply.stage));
      && Due(read) == Some(Published(shown))
      && var after := AfterPublish(read, shown);
         && after.world.held == w.world.held && Due(after).Some?
         && if w.run.view.code.None? then LooksFor(Due(after).value, flow, reply, w.run.asked.Some?, shown)
            else WaitsFor(Due(after).value, reply.stage, shown)
  {}

  lemma AfterScan(w: Watch, flow: Flow, reply: Reply)
    requires w.wire.pending == Some(ReadStage(flow)) && Sound(w).Fine? && !w.run.view.finished
    requires w.run.looks > 0 && !w.run.callOff.Moved? && reply.stage.CodeScanned? && w.run.view.code.Some?
    ensures var shown := w.run.view.(stage := Some(reply.stage));
      var asking := shown.(headline := Scanned, awaiting := true);
      var asked := AfterPublish(AfterPublish(AfterReply(w, ReadStage(flow), reply), shown), asking);
      Due(asked).Some? && if w.world.held then Due(asked).value == Called(ConfirmScan(flow))
                          else Due(asked).value.Called? && Due(asked).value.call.Sync?
  {}

  /** Every read but the first is shown at once. */
  lemma ReadIsShown(script: seq<Turn>, log: seq<Event>, settled: bool, known: seq<Watch>, k: nat)
    requires Lawful(script, log, settled, known) && k < |log| && StageRead(log[k])
    requires Count(log, k, StageRead) > 0
    ensures var shown := Screen(log, k).(stage := Some(log[k].reply.stage));
      && k + 1 < |log| && log[k + 1] == Published(shown)
      && known[k + 2] == AfterPublish(AfterReply(known[k], ReadStage(log[k].call.flow), log[k].reply), shown)
  {
    ReadAt(script, log, settled, known, k);
    ShowsTheRead(known[k], log[k].call.flow, log[k].reply);
    DueHappens(script, log, settled, known, k + 1);
  }

  /** And but after a refused call-off, what it says decides what is next. */
  lemma ReadDecides(script: seq<Turn>, log: seq<Event>, settled: bool, known: seq<Watch>, k: nat)
    requires Lawful(script, log, settled, known) && k < |log| && StageRead(log[k])
    requires Count(log, k, StageRead) > 0 && !IsMoved(LatestSettled(log, k))
    ensures var shown := Screen(log, k).(stage := Some(log[k].reply.stage));
      && k + 2 < |log| && log[k + 1] == Published(shown)
      && if shown.code.None? then LooksFor(log[k + 2], log[k].call.flow, log[k].reply, Had(log, k, AskAnswered), shown)
         else WaitsFor(log[k + 2], log[k].reply.stage, shown)
  {
    ReadAt(script, log, settled, known, k);
    ReadIsShown(script, log, settled, known, k);
    AfterRead(known[k], log[k].call.flow, log[k].reply);
    DueHappens(script, log, settled, known, k + 2);
  }

  /** When the code was scanned the person is asked. */
  lemma ScanAsks(script: seq<Turn>, log: seq<Event>, settled: bool, known: seq<Watch>, k: nat)
    requires Lawful(script, log, settled, known) && k < |log| && StageRead(log[k])
    requires Count(log, k, StageRead) > 0 && !IsMoved(LatestSettled(log, k))
    requires log[k].reply.stage.CodeScanned? && Screen(log, k).code.Some?
    ensures k + 2 < |log| && log[k + 2].Published? && log[k + 2].view.awaiting
    ensures known[k + 3] == AfterPublish(known[k + 2], Screen(log, k).(stage := Some(CodeScanned), headline := Scanned, awaiting := true))
  {
    ReadDecides(script, log, settled, known, k);
    Follows(log, known, k + 2);
  }

  /** Then an answer they have already given is sent at once; otherwise there is
      another sync. */
  lemma ScanDecides(script: seq<Turn>, log: seq<Event>, settled: bool, known: seq<Watch>, k: nat)
    requires Lawful(script, log, settled, known) && k < |log| && StageRead(log[k])
    requires Count(log, k, StageRead) > 0 && !IsMoved(LatestSettled(log, k))
    requires log[k].reply.stage.CodeScanned? && Screen(log, k).code.Some?
    ensures k + 3 < |log| && log[k + 2].Published? && log[k + 2].view.awaiting
    ensures if PressHeld(log, k) then log[k + 3] == Called(ConfirmScan(log[k].call.flow))
            else log[k + 3].Called? && log[k + 3].call.Sync?
  {
    ReadAt(script, log, settled, known, k);
    ReadIsShown(script, log, settled, known, k);
    ScanAsks(script, log, settled, known, k);
    AfterScan(known[k], log[k].call.flow, log[k].reply);
    DueHappens(script, log, settled, known, k + 3);
  }

  /** After a refused call-off, a flow found unanswered still is reported so, once
      the drains are through; any other stage is left to the next read. */
  lemma MovedDecides(script: seq<Turn>, log: seq<Event>, settled: bool, known: seq<Watch>, k: nat)
    requires Lawful(script, log, settled, known) && k < |log| && StageRead(log[k]) && IsMoved(LatestSettled(log, k))
    ensures k + 1 < |log| && log[k + 1] == Published(Screen(log, k).(stage := Some(log[k].reply.stage)))
    ensures if log[k].reply.stage.Requested? then k + 2 < |log| && log[k + 2] == Called(Take)
            else if Had(log, k, StopPress) then k + 2 == |log|
            else k + 2 < |log| && log[k + 2] == Called(ReadStage(log[k].call.flow))
  {
    ReadAt(script, log, settled, known, k);
    ReadIsShown(script, log, settled, known, k);
    AfterMoved(known[k], log[k].call.flow, log[k].reply);
    StopSoFar(log, known, k);
    DueHappens(script, log, settled, known, k + 2);
  }

  lemma AfterMoved(w: Watch, flow: Flow, reply: Reply)
    requires w.wire.pending == Some(ReadStage(flow)) && Sound(w).Fine? && !w.run.view.finished && w.run.callOff.Moved?
    ensures var read, shown := AfterReply(w, ReadStage(flow), reply), w.run.view.(stage := Some(reply.stage));
      && Due(read) == Some(Published(shown))
      && Due(AfterPublish(read, shown)) == if reply.stage.Requested? then Some(Called(Take))
                                           else if w.world.stopped then None
                                           else Some(Called(ReadStage(flow)))
  {}

  /** A code that cannot be had yet is asked for again after another sync; any
      other refusal of the library's is shown, and ends the run. */
  lemma RefusedCode(script: seq<Turn>, log: seq<Event>, settled: bool, known: seq<Watch>, k: nat)
    requires Lawful(script, log, settled, known) && k < |log| && log[k].Rejected? && log[k].call.GetCode?
    ensures k + 1 < |log|
    ensures match log[k].error
            case WrongStage => log[k + 1].Called? && log[k + 1].call.Sync?
            case OtherKind(kind) => log[k + 1] == Published(Screen(log, k).(headline := CannotShow(kind), finished := true, failed := true))
            case NotACryptoError => EndsShowing(log, k + 1, NotACryptoError)
  {
    At(script, log, known, k);
    SeenSoFar(script, log, known, k);
    OutstandingIsUnfinished(log, known, k);
    RejectionEnds(script, log, settled, known, k);
    DueHappens(script, log, settled, known, k + 1);
  }

  // ---- what a call leads to ----

  /** The requests handed out and not yet reported: none but while a drain is under
      way, and the one being posted is the first of them. */
  ghost predicate Handing(w: Watch)
  {
    match w.wire.pending
    case Some(c) => (IsReport(c) || w.wire.batch == []) && (c.Put? ==> IsNext(w.wire, c.request))
    case None =>
      match w.wire.last
      case Answered(c, reply) =>
        && (OfADrain(c) || w.wire.batch == []) && (c.Put? ==> IsNext(w.wire, c.request))
        && (c.Take? ==> w.wire.batch == reply.batch) && (c.Cancel? ==> CallingOff(w.run))
      case _ => true
  }

  ghost predicate IsNext(wire: Wire, r: Request)
  {
    wire.batch != [] && wire.batch[0] == r && Sendable(r)
  }

  lemma HandingStep(script: seq<Turn>, w: Watch, e: Event)
    requires Step(script, w) == Some(e) && Judge(w, e).Fine? && Handing(w)
    ensures Handing(Observe(w, e))
  {}

  lemma {:induction false} HandingSoFar(script: seq<Turn>, log: seq<Event>, known: seq<Watch>, n: nat)
    requires Obeys(log, known) && Traced(script, log, known) && n <= |log|
    ensures Handing(known[n])
  {
    if n > 0 {
      HandingSoFar(script, log, known, n - 1);
      Follows(log, known, n - 1);
      Proceeds(script, log, known, n - 1);
      HandingStep(script, known[n - 1], log[n - 1]);
    }
  }

  /** What the library was just told is drained at once. */
  lemma EffectsAreDrained(script: seq<Turn>, log: seq<Event>, settled: bool, known: seq<Watch>, k: nat)
    requires Lawful(script, log, settled, known) && k < |log| && log[k].Resolved?
    requires log[k].call.Ask? || log[k].call.Accept? || log[k].call.Receive? || log[k].call.ConfirmScan?
    ensures k + 1 < |log| && log[k + 1] == Called(Take)
  {
    At(script, log, known, k);
    HandingSoFar(script, log, known, k + 1);
    OutstandingIsUnfinished(log, known, k);
    DueHappens(script, log, settled, known, k + 1);
  }

  /** Whatever a post is answered, the library is told. */
  lemma PostsAreReported(script: seq<Turn>, log: seq<Event>, settled: bool, known: seq<Watch>, k: nat)
    requires Lawful(script, log, settled, known) && k < |log| && log[k].Resolved? && log[k].call.Put?
    ensures k + 1 < |log|
    ensures var id, status := log[k].call.request.id, log[k].reply.status;
      log[k + 1] == Called(if 200 <= status < 300 then MarkSent(id) else MarkFailed(id, status))
  {
    At(script, log, known, k);
    HandingSoFar(script, log, known, k + 1);
    OutstandingIsUnfinished(log, known, k);
    DueHappens(script, log, settled, known, k + 1);
  }

  /** In phase 1 the run syncs only while there is no flow and it was not stopped. */
  lemma SyncsForAFlow(script: seq<Turn>, log: seq<Event>, known: seq<Watch>, i: nat)
    requires Obeys(log, known) && Traced(script, log, known) && i < |log| && log[i].Called? && log[i].call.Sync?
    requires Screen(log, i).flow.None?
    ensures NothingHeard(log, i) && !Had(log, i, AskAnswered) && !Had(log, i, StopPress)
  {
    At(script, log, known, i);
    SeenSoFar(script, log, known, i);
    StopSoFar(log, known, i);
    AskedSoFar(log, known, i);
    AnnouncedSoFar(log, known, i);
    DueFinds(known[i], log[i].call);
  }

  lemma DueFinds(w: Watch, c: Call)
    requires Due(w) == Some(Called(c)) && Judge(w, Called(c)).Fine? && c.Sync? && Sound(w).Fine? && w.run.view.flow.None?
    ensures FlowOf(w).None? && !w.world.stopped
  {}

  /** A stopped run takes up no flow and shows no code it did not show before. */
  lemma StopIsShown(script: seq<Turn>, log: seq<Event>, known: seq<Watch>, k: nat, i: nat)
    requires Obeys(log, known) && Traced(script, log, known) && k < i < |log|
    requires log[k] == Happened(Stops) && log[i].Published?
    ensures log[i].view.flow == Screen(log, i).flow
    ensures log[i].view.code.Some? ==> log[i].view.code == Screen(log, i).code
  {
    At(script, log, known, i);
    SeenSoFar(script, log, known, i);
    StopSoFar(log, known, i);
    assert StopPress(log[k]);
    DueStopped(known[i], log[i].view);
  }

  lemma DueAfterStopped(w: Watch, call: Call, reply: Reply, v: View)
    requires DueAfter(w, call, reply) == Some(Published(v)) && w.world.stopped
    ensures v.flow == w.run.view.flow && (v.code.Some? ==> v.code == w.run.view.code)
  {}

  lemma DueStopped(w: Watch, v: View)
    requires Due(w) == Some(Published(v)) && w.world.stopped
    ensures v.flow == w.run.view.flow && (v.code.Some? ==> v.code == w.run.view.code)
  {
    if w.wire.last.Answered? && Due(w) == DueAfter(w, w.wire.last.call, w.wire.last.reply) {
      DueAfterStopped(w, w.wire.last.call, w.wire.last.reply, v);
    }
  }

  /** Where a stopped run may rest. */
  predicate RestsAfter(e: Event)
  {
    && e.Resolved?
    && match e.call
       case Take => e.reply.batch == []
       case MarkSent(_) => true
       case MarkFailed(_, _) => true
       case ReadStage(_) => true
       case GetCode(_) => true
       case Sleep => true
       case _ => false
  }

  lemma NothingDue(w: Watch)
    requires Due(w).None? && !w.run.view.finished && w.wire.pending.None? && Sound(w).Fine? && Handing(w)
    ensures w.wire.last.Answered? && RestsAfter(Resolved(w.wire.last.call, w.wire.last.reply))
    ensures w.wire.batch == [] && !CallingOff(w.run)
  {}

  /** A run that ends without a last state was stopped, and rests at the top of a
      loop: every request it was handed is posted and reported, and it was not
      calling its flow off. */
  lemma RestsAtALoop(script: seq<Turn>, log: seq<Event>, settled: bool, known: seq<Watch>) returns (j: nat)
    requires Lawful(script, log, settled, known) && settled && !Screen(log, |log|).finished
    ensures Happened(Stops) in log && Quiet(log, j, |log|) && RestsAfter(log[j])
    ensures known[|log|].wire.batch == [] && !CallingOff(known[|log|].run)
  {
    SoundSoFar(script, log, known, |log|);
    SeenSoFar(script, log, known, |log|);
    HandingSoFar(script, log, known, |log|);
    NothingDue(known[|log|]);
    j := AnsweredAt(log, known, |log|);
  }

  // ---- the opening, and the end ----

  /** Once the machine is made the run listens, says so, and publishes its keys. */
  lemma Opening(script: seq<Turn>, log: seq<Event>, settled: bool, known: seq<Watch>, k: nat)
    requires Lawful(script, log, settled, known) && k < |log| && MachineMade(log[k])
    ensures k + 3 < |log| && log[k + 1] == Subscribed && log[k + 3] == Called(Take)
    ensures log[k + 2] == Published(FIRST_VIEW.(headline := PublishingKeys))
  {
    At(script, log, known, k);
    OutstandingIsUnfinished(log, known, k);
    DueHappens(script, log, settled, known, k + 1);
    DueHappens(script, log, settled, known, k + 2);
    DueHappens(script, log, settled, known, k + 3);
  }

  /** A stopped run in the middle of its sync, or of the pause after it. */
  ghost predicate WindingDown(w: Watch)
  {
    w.world.stopped && !CallingOff(w.run) && (w.wire.task.Sync? || w.wire.task.Receive? || w.wire.task.Sleep?)
  }

  lemma WindsDown(script: seq<Turn>, w: Watch, e: Event)
    requires Step(script, w) == Some(e) && Judge(w, e).Fine? && Sound(w).Fine? && WindingDown(w)
    ensures WindingDown(Observe(w, e))
    ensures e.Called? ==> !e.call.Sync? && !e.call.ReadStage?
  {}

  lemma {:induction false} StaysDown(script: seq<Turn>, log: seq<Event>, known: seq<Watch>, j: nat, n: nat)
    requires Obeys(log, known) && Traced(script, log, known) && j <= n <= |log| && WindingDown(known[j])
    ensures WindingDown(known[n])
  {
    if j < n {
      StaysDown(script, log, known, j, n - 1);
      At(script, log, known, n - 1);
      WindsDown(script, known[n - 1], log[n - 1]);
    }
  }

  /** Stopping ends the loops: after it there is at most one more sync, and no
      stage is read after that. */
  lemma StopEndsTheLoops(script: seq<Turn>, log: seq<Event>, known: seq<Watch>, k: nat, j: nat, i: nat)
    requires Obeys(log, known) && Traced(script, log, known) && k < j < i < |log|
    requires log[k] == Happened(Stops) && log[j].Called? && log[j].call.Sync? && log[i].Called?
    ensures !log[i].call.Sync? && !log[i].call.ReadStage?
  {
    StopSoFar(log, known, j);
    assert StopPress(log[k]);
    At(script, log, known, j);
    SyncWindsDown(known[j], log[j].call);
    StaysDown(script, log, known, j + 1, i);
    At(script, log, known, i);
    WindsDown(script, known[i], log[i]);
  }

  lemma SyncWindsDown(w: Watch, c: Call)
    requires Due(w) == Some(Called(c)) && Judge(w, Called(c)).Fine? && c.Sync? && w.world.stopped
    ensures WindingDown(AfterCall(w, c))
  {}

  // ---- drains ----

  /** Between `j` and `i` the run subscribed or showed a state, and nothing else. */
  ghost predicate Quiet(log: seq<Event>, j: nat, i: nat)
  {
    j < i <= |log| && forall k :: j < k < i ==> log[k].Published? || log[k].Subscribed?
  }

  lemma {:induction false} AnsweredAt(log: seq<Event>, known: seq<Watch>, n: nat) returns (j: nat)
    requires Obeys(log, known) && n <= |log| && known[n].wire.pending.None? && known[n].wire.last.Answered?
    ensures Quiet(log, j, n) && log[j] == Resolved(known[n].wire.last.call, known[n].wire.last.reply)
  {
    Follows(log, known, n - 1);
    if log[n - 1].Published? || log[n - 1].Subscribed? {
      j := AnsweredAt(log, known, n - 1);
    } else {
      j := n - 1;
    }
  }

  lemma DueDrains(w: Watch)
    requires Due(w) == Some(Called(Take)) && Judge(w, Called(Take)).Fine?
    ensures w.wire.pending.None? && w.wire.last.Answered?
    ensures var c := w.wire.last.call; IsDrained(c) || (CallingOff(w.run) && (c.Cancel? || c.ReadStage? || c.Sleep?))
  {}

  /** A drain comes straight after a call whose effect waits in the library; one
      that delivers a call-off, after that was queued, or the stage was read again,
      or a pause. So between two of them there is a pause. */
  lemma DrainsAreDue(script: seq<Turn>, log: seq<Event>, known: seq<Watch>, i: nat) returns (j: nat)
    requires Obeys(log, known) && Traced(script, log, known) && i < |log| && log[i] == Called(Take)
    ensures Quiet(log, j, i) && log[j].Resolved?
    ensures IsDrained(log[j].call) || (CallingOff(known[i].run) && (log[j].call.Cancel? || log[j].call.ReadStage? || log[j].call.Sleep?))
  {
    At(script, log, known, i);
    DueDrains(known[i]);
    j := AnsweredAt(log, known, i);
  }
}
