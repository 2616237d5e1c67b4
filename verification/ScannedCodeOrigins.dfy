/** Where what a run sends and shows comes from, stated of its log alone: the
    token of a sync, the flow of a call, the code and the stage of a state, the
    requests of a drain.
  */
module ScannedCodeOrigins {
  import opened Options
  import opened Protocol
  import opened ScannedCodeLaws

  // ---- the token of a sync ----

  predicate BringsToken(e: Event) { e.Resolved? && e.call.Sync? && e.reply.next.Some? }

  /** No sync answered between `j` and `n` brought a token. */
  ghost predicate NoTokenBetween(log: seq<Event>, j: int, n: nat)
    requires n <= |log|
  {
    forall k :: j < k < n && 0 <= k ==> !BringsToken(log[k])
  }

  /** `t` is the token of the latest answer that brought one, at `j`, or 0 if none
      did. */
  ghost predicate LatestToken(log: seq<Event>, j: int, n: nat, t: Token)
    requires n <= |log|
  {
    && -1 <= j < n && NoTokenBetween(log, j, n)
    && if j == -1 then t == 0 else BringsToken(log[j]) && log[j].reply.next == Some(t)
  }

  lemma TokenStep(w: Watch, e: Event)
    ensures Observe(w, e).run.token == if BringsToken(e) then e.reply.next.value else w.run.token
  {}

  lemma TokenMore(log: seq<Event>, j: int, n: nat, t: Token)
    requires n < |log| && LatestToken(log, j, n, t) && !BringsToken(log[n])
    ensures LatestToken(log, j, n + 1, t)
  {}

  lemma {:induction false} TokenSoFar(log: seq<Event>, known: seq<Watch>, n: nat) returns (j: int)
    requires Obeys(log, known) && n <= |log|
    ensures LatestToken(log, j, n, known[n].run.token)
  {
    if n == 0 {
      j := -1;
    } else {
      Follows(log, known, n - 1);
      TokenStep(known[n - 1], log[n - 1]);
      if BringsToken(log[n - 1]) {
        j := n - 1;
      } else {
        j := TokenSoFar(log, known, n - 1);
        TokenMore(log, j, n - 1, known[n - 1].run.token);
      }
    }
  }

  /** A sync is asked for from where the latest one that said so ended. */
  lemma SyncsFromTheLatest(log: seq<Event>, known: seq<Watch>, i: nat) returns (j: int)
    requires Obeys(log, known) && i < |log| && log[i].Called? && log[i].call.Sync?
    ensures LatestToken(log, j, i, log[i].call.since)
  {
    Follows(log, known, i);
    j := TokenSoFar(log, known, i);
  }

  // ---- the flow of a call ----

  function FlowNamed(c: Call): Option<Flow>
  {
    match c
    case ReadStage(f) => Some(f)
    case Accept(f) => Some(f)
    case Cancel(f) => Some(f)
    case GetCode(f) => Some(f)
    case ConfirmScan(f) => Some(f)
    case _ => None
  }

  predicate AskAnswered(e: Event) { e.Resolved? && e.call.Ask? }

  /** The run has subscribed, and was not stopped since. */
  ghost predicate Listens(log: seq<Event>, n: nat)
    requires n <= |log|
  {
    exists s :: 0 <= s < n && log[s].Subscribed? && NotStopped(log, s, n)
  }

  ghost predicate NotStopped(log: seq<Event>, s: nat, n: nat)
    requires n <= |log|
  {
    forall k :: s < k < n ==> log[k] != Happened(Stops)
  }

  /** An announcement the run hears. */
  ghost predicate Heard(log: seq<Event>, j: nat)
    requires j < |log|
  {
    log[j].Happened? && log[j].what.Signal? && Listens(log, j)
  }

  /** `f` is the first flow announced to a listening run. */
  ghost predicate FirstAnnounced(log: seq<Event>, n: nat, f: Flow)
    requires n <= |log|
  {
    exists j :: 0 <= j < n && Heard(log, j) && log[j].what.flow == f && NothingHeard(log, j)
  }

  ghost predicate NothingHeard(log: seq<Event>, n: nat)
    requires n <= |log|
  {
    forall k :: 0 <= k < n ==> !Heard(log, k)
  }

  lemma ListensMore(log: seq<Event>, n: nat)
    requires n < |log|
    ensures Listens(log, n + 1) <==> log[n].Subscribed? || (log[n] != Happened(Stops) && Listens(log, n))
  {
    if log[n].Subscribed? {
      assert NotStopped(log, n, n + 1);
    } else if log[n] != Happened(Stops) {
      if s :| 0 <= s < n && log[s].Subscribed? && NotStopped(log, s, n) {
        assert NotStopped(log, s, n + 1);
      }
      if s :| 0 <= s < n + 1 && log[s].Subscribed? && NotStopped(log, s, n + 1) {
        assert NotStopped(log, s, n);
      }
    }
  }

  lemma ListenStep(w: Watch, e: Event)
    ensures Observe(w, e).world.listening <==> e.Subscribed? || (e != Happened(Stops) && w.world.listening)
  {}

  lemma {:induction false} ListensSoFar(log: seq<Event>, known: seq<Watch>, n: nat)
    requires Obeys(log, known) && n <= |log|
    ensures known[n].world.listening <==> Listens(log, n)
  {
    if n > 0 {
      ListensSoFar(log, known, n - 1);
      Follows(log, known, n - 1);
      ListenStep(known[n - 1], log[n - 1]);
      ListensMore(log, n - 1);
    }
  }

  lemma SignalStep(w: Watch, e: Event)
    ensures Observe(w, e).world.signalled ==
      if e.Happened? && e.what.Signal? && w.world.listening && w.world.signalled.None? then Some(e.what.flow) else w.world.signalled
  {}

  lemma {:induction false} AnnouncedSoFar(log: seq<Event>, known: seq<Watch>, n: nat)
    requires Obeys(log, known) && n <= |log|
    ensures match known[n].world.signalled
            case Some(f) => FirstAnnounced(log, n, f)
            case None => NothingHeard(log, n)
  {
    if n > 0 {
      var m := n - 1;
      AnnouncedSoFar(log, known, m);
      ListensSoFar(log, known, m);
      Follows(log, known, m);
      SignalStep(known[m], log[m]);
      if known[m].world.signalled.Some? {
        var j :| 0 <= j < m && Heard(log, j) && log[j].what.flow == known[m].world.signalled.value && NothingHeard(log, j);
        assert Heard(log, j);
      } else if Heard(log, m) {
        assert NothingHeard(log, m);
      }
    }
  }

  /** The flow a run is about: the one it asked for, if its asking was answered,
      and else the first announced. */
  ghost predicate TheFlow(log: seq<Event>, n: nat, f: Flow)
    requires n <= |log|
  {
    if Had(log, n, AskAnswered) then exists j :: 0 <= j < n && AskAnswered(log[j]) && log[j].reply.flow == f
    else FirstAnnounced(log, n, f)
  }

  lemma AskedStep(w: Watch, e: Event)
    ensures Observe(w, e).run.asked == if AskAnswered(e) then Some(e.reply.flow) else w.run.asked
  {}

  lemma {:induction false} AskedSoFar(log: seq<Event>, known: seq<Watch>, n: nat)
    requires Obeys(log, known) && n <= |log|
    ensures match known[n].run.asked
            case Some(f) => exists j :: 0 <= j < n && AskAnswered(log[j]) && log[j].reply.flow == f
            case None => !Had(log, n, AskAnswered)
  {
    if n > 0 {
      AskedSoFar(log, known, n - 1);
      Follows(log, known, n - 1);
      AskedStep(known[n - 1], log[n - 1]);
    }
  }

  lemma FlowSoFar(log: seq<Event>, known: seq<Watch>, n: nat, f: Flow)
    requires Obeys(log, known) && n <= |log| && FlowOf(known[n]) == Some(f)
    ensures TheFlow(log, n, f)
  {
    AskedSoFar(log, known, n);
    AnnouncedSoFar(log, known, n);
  }

  /** Every call about a flow is about that one, and so is every state. */
  lemma CallsNameTheFlow(log: seq<Event>, known: seq<Watch>, i: nat, f: Flow)
    requires Obeys(log, known) && i < |log|
    requires (log[i].Called? && FlowNamed(log[i].call) == Some(f)) || (log[i].Published? && log[i].view.flow == Some(f))
    ensures TheFlow(log, i, f)
  {
    Follows(log, known, i);
    FlowSoFar(log, known, i, f);
  }

  // ---- the code and the stage of a state ----

  lemma CodeStep(w: Watch, e: Event)
    ensures Observe(w, e).run.code == if e.Resolved? && e.call.GetCode? then Some(e.reply.code) else w.run.code
  {}

  lemma {:induction false} CodeSoFar(log: seq<Event>, known: seq<Watch>, n: nat) returns (j: nat)
    requires Obeys(log, known) && n <= |log| && known[n].run.code.Some?
    ensures j < n && log[j].Resolved? && log[j].call.GetCode? && known[n].run.code == Some(log[j].reply.code)
  {
    Follows(log, known, n - 1);
    CodeStep(known[n - 1], log[n - 1]);
    if log[n - 1].Resolved? && log[n - 1].call.GetCode? {
      j := n - 1;
    } else {
      j := CodeSoFar(log, known, n - 1);
    }
  }

  /** The code shown is one the library handed over. */
  lemma ShowsTheCodeHandedOver(log: seq<Event>, known: seq<Watch>, i: nat) returns (j: nat)
    requires Obeys(log, known) && i < |log| && log[i].Published? && log[i].view.code.Some?
    ensures j < i && log[j].Resolved? && log[j].call.GetCode? && log[i].view.code == Some(log[j].reply.code)
  {
    Follows(log, known, i);
    j := CodeSoFar(log, known, i);
  }

  /** The stage the latest answer to a read gave. */
  function LatestStage(log: seq<Event>, n: nat): Option<Stage>
    requires n <= |log|
  {
    if n == 0 then None
    else if log[n - 1].Resolved? && log[n - 1].call.ReadStage? then Some(log[n - 1].reply.stage)
    else LatestStage(log, n - 1)
  }

  /** What the screen shows of the stage, or will before anything else. */
  ghost predicate StageIsFresh(w: Watch, latest: Option<Stage>)
  {
    && (w.run.looks == 0 ==> latest.None? && w.run.view.stage.None?)
    && (w.wire.pending.Some? && w.wire.pending.value.ReadStage? ==> w.wire.batch == [])
    && (w.wire.last.Answered? && w.wire.last.call.ReadStage? ==>
          && latest == Some(w.wire.last.reply.stage) && (w.wire.pending.None? ==> w.wire.batch == [] && w.wire.attempts == 0))
    && (Unshown(w.wire) && w.run.looks == 1 ==> w.run.view.stage.None?)
    && (Unshown(w.wire) && w.wire.pending.Some? ==> w.run.looks == 1)
    && (w.run.view.stage == latest || Unshown(w.wire) || (w.run.looks == 1 && w.run.view.stage.None?))
  }

  lemma StageStep(w: Watch, e: Event, latest: Option<Stage>)
    requires Judge(w, e).Fine? && StageIsFresh(w, latest)
    ensures StageIsFresh(Observe(w, e), if e.Resolved? && e.call.ReadStage? then Some(e.reply.stage) else latest)
    ensures e.Published? && e.view.stage.Some? ==> e.view.stage == latest
  {}

  lemma LatestMore(log: seq<Event>, n: nat)
    requires n < |log|
    ensures LatestStage(log, n + 1) ==
      if log[n].Resolved? && log[n].call.ReadStage? then Some(log[n].reply.stage) else LatestStage(log, n)
  {}

  lemma {:induction false} StageSoFar(log: seq<Event>, known: seq<Watch>, n: nat)
    requires Obeys(log, known) && n <= |log|
    ensures StageIsFresh(known[n], LatestStage(log, n))
  {
    if n > 0 {
      StageSoFar(log, known, n - 1);
      Follows(log, known, n - 1);
      StageStep(known[n - 1], log[n - 1], LatestStage(log, n - 1));
      LatestMore(log, n - 1);
    }
  }

  /** A stage on the screen is the latest the library gave. */
  lemma ShowsTheLatestStage(log: seq<Event>, known: seq<Watch>, i: nat)
    requires Obeys(log, known) && i < |log| && log[i].Published? && log[i].view.stage.Some?
    ensures log[i].view.stage == LatestStage(log, i)
  {
    Follows(log, known, i);
    StageSoFar(log, known, i);
    StageStep(known[i], log[i], LatestStage(log, i));
  }

  // ---- the requests of a drain ----

  predicate PutCall(e: Event) { e.Called? && e.call.Put? }

  predicate TakeCall(e: Event) { e.Called? && e.call.Take? }

  /** No drain was started between `j` and `n`. */
  ghost predicate OneDrain(log: seq<Event>, j: nat, n: nat)
    requires n <= |log|
  {
    j < n && log[j].Resolved? && log[j].call.Take? && forall k :: j < k < n ==> !TakeCall(log[k])
  }

  /** A request was posted, or is being, and is not yet reported. */
  predicate InHand(wire: Wire)
  {
    match wire.pending
    case Some(c) => IsReport(c)
    case None => match wire.last
      case Answered(c, _) => c.Put?
      case Threw(c, _) => IsReport(c)
      case Nothing => false
  }

  /** What is left of the requests a drain handed over, from the `from`th on. */
  ghost predicate Rest(left: seq<Request>, all: seq<Request>, from: int)
  {
    0 <= from && from + |left| == |all| && forall k :: 0 <= k < |left| ==> left[k] == all[from + k]
  }

  /** How many of those posted have been reported. */
  function Reported(wire: Wire, posted: int): int
  {
    posted - if InHand(wire) then 1 else 0
  }

  lemma WireStep(w: Watch, e: Event, posted: int)
    requires Judge(w, e).Fine? && w.wire.batch != [] && Observe(w, e).wire.batch != []
    requires !(e.Resolved? && e.call.Take?)
    ensures !TakeCall(e)
    ensures if e.Resolved? && IsReport(e.call) && !e.call.Put? then
              Observe(w, e).wire.batch == w.wire.batch[1..]
            else Observe(w, e).wire.batch == w.wire.batch
    ensures Reported(Observe(w, e).wire, posted + if PutCall(e) then 1 else 0)
         == if e.Resolved? && IsReport(e.call) && !e.call.Put? then
              Reported(w.wire, posted) + 1
            else Reported(w.wire, posted)
  {}

  /** What is on the wire is what is left of the drain answered at `j`. */
  ghost predicate LeftOf(log: seq<Event>, j: nat, n: nat, wire: Wire)
    requires n <= |log|
  {
    && OneDrain(log, j, n)
    && Rest(wire.batch, log[j].reply.batch, Reported(wire, Count(log, n, PutCall) - Count(log, j, PutCall)))
  }

  lemma LeftMore(log: seq<Event>, j: nat, n: nat, w: Watch)
    requires n < |log| && LeftOf(log, j, n, w.wire) && Judge(w, log[n]).Fine?
    requires w.wire.batch != [] && Observe(w, log[n]).wire.batch != [] && !(log[n].Resolved? && log[n].call.Take?)
    ensures LeftOf(log, j, n + 1, Observe(w, log[n]).wire)
  {
    WireStep(w, log[n], Count(log, n, PutCall) - Count(log, j, PutCall));
  }

  lemma BatchStep(w: Watch, e: Event)
    ensures Observe(w, e).wire.batch != [] ==> w.wire.batch != [] || (e.Resolved? && e.call.Take? && Observe(w, e).wire.batch == e.reply.batch)
    ensures e.Resolved? && e.call.Take? ==> Observe(w, e).wire.batch == e.reply.batch && !InHand(Observe(w, e).wire)
  {}

  lemma {:induction false} DrainSoFar(log: seq<Event>, known: seq<Watch>, n: nat) returns (j: nat)
    requires Obeys(log, known) && n <= |log| && known[n].wire.batch != []
    ensures LeftOf(log, j, n, known[n].wire)
  {
    var m := n - 1;
    Follows(log, known, m);
    BatchStep(known[m], log[m]);
    if log[m].Resolved? && log[m].call.Take? {
      j := m;
    } else {
      j := DrainSoFar(log, known, m);
      LeftMore(log, j, m, known[m]);
    }
  }

  /** The requests of a drain are posted in the order it handed them over, each
      once. */
  lemma PostedInOrder(log: seq<Event>, known: seq<Watch>, i: nat) returns (j: nat)
    requires Obeys(log, known) && i < |log| && PutCall(log[i])
    ensures OneDrain(log, j, i)
    ensures var n := Count(log, i, PutCall) - Count(log, j, PutCall);
      0 <= n < |log[j].reply.batch| && log[i].call.request == log[j].reply.batch[n]
  {
    Follows(log, known, i);
    j := DrainSoFar(log, known, i);
  }

  // ---- presses ----

  /** A confirmation was pressed and none has been sent since. */
  ghost predicate PressHeld(log: seq<Event>, n: nat)
    requires n <= |log|
  {
    exists p :: 0 <= p < n && ConfirmPress(log[p]) && NoneSent(log, p, n)
  }

  ghost predicate NoneSent(log: seq<Event>, p: nat, n: nat)
    requires n <= |log|
  {
    forall q :: p < q < n ==> !ConfirmCall(log[q])
  }

  lemma PressMore(log: seq<Event>, n: nat)
    requires n < |log|
    ensures PressHeld(log, n + 1) <==> ConfirmPress(log[n]) || (!ConfirmCall(log[n]) && PressHeld(log, n))
  {
    if ConfirmPress(log[n]) {
      assert NoneSent(log, n, n + 1);
    } else if !ConfirmCall(log[n]) {
      if p :| 0 <= p < n && ConfirmPress(log[p]) && NoneSent(log, p, n) {
        assert NoneSent(log, p, n + 1);
      }
      if p :| 0 <= p < n + 1 && ConfirmPress(log[p]) && NoneSent(log, p, n + 1) {
        assert NoneSent(log, p, n);
      }
    }
  }

  lemma PressStep(w: Watch, e: Event)
    ensures Observe(w, e).world.held <==> ConfirmPress(e) || (!ConfirmCall(e) && w.world.held)
  {}

  lemma HeldMore(log: seq<Event>, known: seq<Watch>, n: nat)
    requires Obeys(log, known) && n < |log| && (known[n].world.held <==> PressHeld(log, n))
    ensures known[n + 1].world.held <==> PressHeld(log, n + 1)
  {
    Follows(log, known, n);
    PressStep(known[n], log[n]);
    PressMore(log, n);
  }

  /** What is held is a press not yet answered. */
  lemma {:induction false} HeldSoFar(log: seq<Event>, known: seq<Watch>, n: nat)
    requires Obeys(log, known) && n <= |log|
    ensures known[n].world.held <==> PressHeld(log, n)
  {
    if n > 0 {
      HeldSoFar(log, known, n - 1);
      HeldMore(log, known, n - 1);
    }
  }

  predicate StageRead(e: Event) { e.Resolved? && e.call.ReadStage? }

  lemma LooksStep(w: Watch, e: Event)
    ensures Observe(w, e).run.looks == w.run.looks + if StageRead(e) then 1 else 0
  {}

  lemma {:induction false} LooksSoFar(log: seq<Event>, known: seq<Watch>, n: nat)
    requires Obeys(log, known) && n <= |log|
    ensures known[n].run.looks == Count(log, n, StageRead)
  {
    if n > 0 {
      LooksSoFar(log, known, n - 1);
      Follows(log, known, n - 1);
      LooksStep(known[n - 1], log[n - 1]);
    }
  }

  predicate AskPress(e: Event) { e == Happened(Asks) }

  lemma {:induction false} AskHeldSoFar(log: seq<Event>, known: seq<Watch>, n: nat)
    requires Obeys(log, known) && n <= |log| && known[n].world.askHeld
    ensures Had(log, n, AskPress)
  {
    Follows(log, known, n - 1);
    if log[n - 1] == Happened(Asks) {
      assert AskPress(log[n - 1]);
    } else {
      AskHeldSoFar(log, known, n - 1);
    }
  }

  /** The other devices are asked only when the person pressed for it, and while
      nobody has announced a flow. */
  lemma AskTakesAPress(log: seq<Event>, known: seq<Watch>, i: nat)
    requires Obeys(log, known) && i < |log| && log[i] == Called(Ask)
    ensures Had(log, i, AskPress) && NothingHeard(log, i) && !Had(log, i, AskAnswered)
  {
    Follows(log, known, i);
    AskHeldSoFar(log, known, i);
    AskedSoFar(log, known, i);
    AnnouncedSoFar(log, known, i);
  }

  predicate StopPress(e: Event) { e == Happened(Stops) }

  lemma StopStep(w: Watch, e: Event)
    ensures Observe(w, e).world.stopped <==> w.world.stopped || StopPress(e)
  {}

  lemma {:induction false} StopSoFar(log: seq<Event>, known: seq<Watch>, n: nat)
    requires Obeys(log, known) && n <= |log|
    ensures known[n].world.stopped <==> Had(log, n, StopPress)
  {
    if n > 0 {
      StopSoFar(log, known, n - 1);
      Follows(log, known, n - 1);
      StopStep(known[n - 1], log[n - 1]);
      HadMore(log, n - 1, StopPress);
    }
  }

  /** What the observer calls the last rejection is the last event but for states. */
  lemma {:induction false} LastThrow(log: seq<Event>, known: seq<Watch>, n: nat) returns (j: nat)
    requires Obeys(log, known) && n <= |log| && known[n].wire.pending.None? && known[n].wire.last.Threw?
    ensures j < n && OnlyStates(log, j, n) && log[j] == Rejected(known[n].wire.last.call, known[n].wire.last.error)
  {
    Follows(log, known, n - 1);
    if log[n - 1].Published? {
      j := LastThrow(log, known, n - 1);
    } else {
      j := n - 1;
    }
  }

  /** The latest event in which a call settled. */
  function LatestSettled(log: seq<Event>, n: nat): Option<Event>
    requires n <= |log|
  {
    if n == 0 then None
    else if log[n - 1].Resolved? || log[n - 1].Rejected? then Some(log[n - 1])
    else LatestSettled(log, n - 1)
  }

  function Settled(last: Last): Option<Event>
  {
    match last
    case Nothing => None
    case Answered(c, reply) => Some(Resolved(c, reply))
    case Threw(c, error) => Some(Rejected(c, error))
  }

  lemma SettledStep(w: Watch, e: Event)
    ensures Settled(Observe(w, e).wire.last) == if e.Resolved? || e.Rejected? then Some(e) else Settled(w.wire.last)
  {}

  lemma {:induction false} SettledSoFar(log: seq<Event>, known: seq<Watch>, n: nat)
    requires Obeys(log, known) && n <= |log|
    ensures LatestSettled(log, n) == Settled(known[n].wire.last)
  {
    if n > 0 {
      SettledSoFar(log, known, n - 1);
      Follows(log, known, n - 1);
      SettledStep(known[n - 1], log[n - 1]);
    }
  }

  /** The library has just refused to call the flow off, for its stage moved. */
  predicate IsMoved(settled: Option<Event>)
  {
    settled.Some? && settled.value.Rejected? && settled.value.call.Cancel? && settled.value.error.WrongStage?
  }

  /** Between that refusal and the stage read again nothing else settles. */
  ghost predicate MovedMeans(w: Watch)
  {
    && (IsMoved(Settled(w.wire.last)) ==> w.run.callOff.Moved?)
    && (w.run.callOff.Moved? && w.wire.pending.Some? ==> w.wire.pending.value.ReadStage? && IsMoved(Settled(w.wire.last)))
    && (w.run.callOff.Moved? && w.wire.pending.None? && !IsMoved(Settled(w.wire.last)) ==> w.wire.last.Threw? && w.wire.last.call.ReadStage?)
  }

  lemma MovedStep(w: Watch, e: Event)
    requires Judge(w, e).Fine? && MovedMeans(w)
    ensures MovedMeans(Observe(w, e))
  {}

  lemma {:induction false} MovedSoFar(log: seq<Event>, known: seq<Watch>, n: nat)
    requires Obeys(log, known) && n <= |log|
    ensures MovedMeans(known[n])
  {
    if n > 0 {
      MovedSoFar(log, known, n - 1);
      Follows(log, known, n - 1);
      MovedStep(known[n - 1], log[n - 1]);
    }
  }

  /** Once stopped, a run asks for nothing and reads no stage, unless the library
      has just refused to call its flow off. */
  lemma StopIsSeen(log: seq<Event>, known: seq<Watch>, k: nat, i: nat) returns (j: nat)
    requires Obeys(log, known) && k < i < |log| && log[k] == Happened(Stops) && log[i].Called?
    ensures !log[i].call.Ask?
    ensures log[i].call.ReadStage? ==> j < i && OnlyStates(log, j, i) && log[j].Rejected? && log[j].call.Cancel?
  {
    StopSoFar(log, known, i);
    assert StopPress(log[k]);
    Follows(log, known, i);
    j := 0;
    if log[i].call.ReadStage? {
      MovedSoFar(log, known, i);
      j := LastThrow(log, known, i);
    }
  }

  // ---- the drains of a call-off ----

  predicate StartsCallOff(e: Event) { e.Resolved? && (e.call.Cancel? || e.call.ReadStage?) }

  /** The latest such answer before `n` is at `c`, and since then there were as
      many drains as the observer counted. */
  ghost predicate DrainsSince(log: seq<Event>, c: nat, n: nat, attempts: nat)
    requires n <= |log|
  {
    && c < n && StartsCallOff(log[c]) && (forall k :: c < k < n ==> !StartsCallOff(log[k]))
    && attempts == Count(log, n, TakeCall) - Count(log, c, TakeCall) <= 3
  }

  lemma AttemptStep(w: Watch, e: Event)
    requires Judge(w, e).Fine? && CallingOff(Observe(w, e).run)
    ensures if StartsCallOff(e) then Observe(w, e).wire.attempts == 0
            else CallingOff(w.run) && Observe(w, e).wire.attempts == w.wire.attempts + if TakeCall(e) then 1 else 0
    ensures TakeCall(e) ==> w.wire.attempts < 3
  {}

  lemma DrainsMore(log: seq<Event>, c: nat, n: nat, attempts: nat)
    requires n < |log| && DrainsSince(log, c, n, attempts) && !StartsCallOff(log[n]) && (TakeCall(log[n]) ==> attempts < 3)
    ensures DrainsSince(log, c, n + 1, attempts + if TakeCall(log[n]) then 1 else 0)
  {}

  lemma {:induction false} AttemptsSoFar(log: seq<Event>, known: seq<Watch>, n: nat) returns (c: nat)
    requires Obeys(log, known) && n <= |log| && CallingOff(known[n].run)
    ensures DrainsSince(log, c, n, known[n].wire.attempts)
  {
    Follows(log, known, n - 1);
    AttemptStep(known[n - 1], log[n - 1]);
    if StartsCallOff(log[n - 1]) {
      c := n - 1;
    } else {
      c := AttemptsSoFar(log, known, n - 1);
      DrainsMore(log, c, n - 1, known[n - 1].wire.attempts);
    }
  }

  /** Since the library queued the call-off, or the stage was read once more, there
      were at most three drains; a run that says it could not deliver the call-off
      made all three. */
  lemma ThreeDrains(log: seq<Event>, known: seq<Watch>, i: nat) returns (c: nat)
    requires Obeys(log, known) && i < |log| && log[i].Published? && log[i].view.headline.Unanswered? && log[i].view.finished
    ensures c < i && StartsCallOff(log[c]) && forall k :: c < k < i ==> !StartsCallOff(log[k])
    ensures var drains := Count(log, i, TakeCall) - Count(log, c, TakeCall);
      if log[i].view.headline.delivered then drains <= 3 else drains == 3
  {
    Follows(log, known, i);
    c := AttemptsSoFar(log, known, i);
  }
}
