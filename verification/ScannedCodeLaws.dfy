/** What every run of the scanned code keeps, stated of its log alone, and
    proved of every log that obeys the rules. The rules leave more open than the
    runner does; module `ScannedCodeRun` shows that it leaves no log behind that
    breaks them, and `Course` which one it leaves behind.
  */
module ScannedCodeLaws {
  import opened Options
  import opened Protocol

  // ---- positions in a log ----

  lemma Follows(log: seq<Event>, known: seq<Watch>, n: nat)
    requires Obeys(log, known) && n < |log|
    ensures Judge(known[n], log[n]).Fine? && known[n + 1] == Observe(known[n], log[n])
  {
    assert log[n] == log[n];
  }

  /** Between `j` and `i` states were published, and nothing else happened. */
  ghost predicate OnlyStates(log: seq<Event>, j: int, i: nat)
  {
    -1 <= j < i <= |log| && forall k :: j < k < i ==> log[k].Published?
  }

  /** What the observer calls the last answer is the last event but for states. */
  lemma {:induction false} LastAnswer(log: seq<Event>, known: seq<Watch>, n: nat) returns (j: nat)
    requires Obeys(log, known) && n <= |log|
    requires known[n].wire.pending.None? && known[n].wire.last.Answered? && !known[n].wire.last.call.Create?
    ensures j < n && log[j] == Resolved(known[n].wire.last.call, known[n].wire.last.reply) && OnlyStates(log, j, n)
  {
    Follows(log, known, n - 1);
    if log[n - 1].Published? {
      j := LastAnswer(log, known, n - 1);
    } else {
      j := n - 1;
    }
  }

  /** A code has been shown once a published state had one. */
  lemma {:induction false} CodeWasShown(log: seq<Event>, known: seq<Watch>, n: nat) returns (j: nat)
    requires Obeys(log, known) && n <= |log| && known[n].run.codeShown
    ensures j < n && log[j].Published? && log[j].view.code.Some?
  {
    Follows(log, known, n - 1);
    if log[n - 1].Published? && log[n - 1].view.code.Some? {
      j := n - 1;
    } else {
      j := CodeWasShown(log, known, n - 1);
    }
  }

  /** Every read of a stage is of the flow the run is about by then. */
  lemma {:induction false} ReadsItsFlow(log: seq<Event>, known: seq<Watch>, n: nat)
    requires Obeys(log, known) && n <= |log|
    ensures var w := known[n];
      && (w.wire.pending.Some? && w.wire.pending.value.ReadStage? ==> FlowOf(w) == Some(w.wire.pending.value.flow))
      && (w.wire.last.Answered? && w.wire.last.call.ReadStage? && (w.wire.pending.Some? ==> !w.wire.pending.value.Ask?) ==>
            FlowOf(w) == Some(w.wire.last.call.flow))
      && (w.wire.pending == Some(Ask) ==> !(w.wire.last.Answered? && w.wire.last.call.ReadStage?))
  {
    if n > 0 {
      ReadsItsFlow(log, known, n - 1);
      Follows(log, known, n - 1);
    }
  }

  lemma FlowStep(w: Watch, e: Event, flow: Flow)
    requires Judge(w, e).Fine?
    requires e == Called(ReadStage(flow)) || (FlowOf(w) == Some(flow) && w.wire.pending != Some(Ask))
    ensures FlowOf(Observe(w, e)) == Some(flow) && Observe(w, e).wire.pending != Some(Ask)
  {}

  /** A flow that has been read stays the flow the run is about. */
  lemma {:induction false} StaysTheFlow(log: seq<Event>, known: seq<Watch>, i: nat, n: nat)
    requires Obeys(log, known) && i < n <= |log| && log[i].Called? && log[i].call.ReadStage?
    ensures FlowOf(known[n]) == Some(log[i].call.flow)
    ensures known[n].wire.pending != Some(Ask)
  {
    if i < n - 1 {
      StaysTheFlow(log, known, i, n - 1);
    }
    Follows(log, known, n - 1);
    FlowStep(known[n - 1], log[n - 1], log[i].call.flow);
  }

  /** A run reads the stage of no flow but one. */
  lemma OneFlow(log: seq<Event>, known: seq<Watch>, i: nat, j: nat)
    requires Obeys(log, known) && i < |log| && log[i].Called? && log[i].call.ReadStage?
    requires j < |log| && log[j].Called? && log[j].call.ReadStage?
    ensures log[i].call.flow == log[j].call.flow
  {
    StaysTheFlow(log, known, i, |log|);
    StaysTheFlow(log, known, j, |log|);
  }

  /** How many of the first `n` events are of a kind. */
  function Count(log: seq<Event>, n: nat, kind: Event -> bool): nat
    requires n <= |log|
  {
    if n == 0 then 0 else Count(log, n - 1, kind) + if kind(log[n - 1]) then 1 else 0
  }

  // ---- confirming ----

  predicate ConfirmCall(e: Event) { e.Called? && e.call.ConfirmScan? }

  predicate ConfirmPress(e: Event) { e == Happened(Confirms) }

  /** A confirmation goes out only straight after the flow was read to be
      scanned, of that flow, with a code on screen. */
  lemma ConfirmOnlyWhenScanned(log: seq<Event>, known: seq<Watch>, i: nat) returns (read: nat, shown: nat)
    requires Obeys(log, known) && i < |log| && log[i].Called? && log[i].call.ConfirmScan?
    ensures read < i && OnlyStates(log, read, i)
    ensures log[read].Resolved? && log[read].call == ReadStage(log[i].call.flow) && log[read].reply.stage.CodeScanned?
    ensures shown < i && log[shown].Published? && log[shown].view.code.Some?
  {
    Follows(log, known, i);
    ReadsItsFlow(log, known, i);
    read := LastAnswer(log, known, i);
    shown := CodeWasShown(log, known, i);
  }

  /** Only a press sets the held answer, and a confirmation uses it up. */
  lemma HeldStep(w: Watch, e: Event)
    requires Judge(w, e).Fine?
    ensures ConfirmCall(e) ==> w.world.held && !Observe(w, e).world.held
    ensures !ConfirmCall(e) && Observe(w, e).world.held ==> w.world.held || ConfirmPress(e)
  {}

  /** A press is held, and answers one request for it: there are never more
      confirmations than presses. */
  lemma {:induction false} ConfirmationsNeedPresses(log: seq<Event>, known: seq<Watch>, n: nat)
    requires Obeys(log, known) && n <= |log|
    ensures Count(log, n, ConfirmCall) + (if known[n].world.held then 1 else 0) <= Count(log, n, ConfirmPress)
  {
    if n > 0 {
      ConfirmationsNeedPresses(log, known, n - 1);
      Follows(log, known, n - 1);
      HeldStep(known[n - 1], log[n - 1]);
    }
  }

  // ---- accepting ----

  /** An ask that failed ends the run, and one that did not is remembered. */
  ghost predicate AskRemembered(w: Watch)
  {
    && !w.run.accepted
    && (|| w.wire.pending == Some(Ask)
        || w.run.asked.Some?
        || (w.wire.last.Threw? && w.wire.last.call.Ask? && w.wire.pending.None? && w.run.callOff.NotCalled?))
  }

  /** Only a flow asked for from here is called off. */
  ghost predicate CallsOffOwnFlow(w: Watch)
  {
    w.run.asked.None? ==> w.run.callOff.NotCalled? && !(w.wire.pending.Some? && w.wire.pending.value.Cancel?)
  }

  lemma AskStep(w: Watch, e: Event)
    requires Judge(w, e).Fine? && CallsOffOwnFlow(w)
    ensures CallsOffOwnFlow(Observe(w, e))
    ensures AskRemembered(w) || e == Called(Ask) ==> w.run.accepted || AskRemembered(Observe(w, e))
    ensures e == Called(Ask) ==> FlowOf(w).None?
  {}

  /** Acceptance takes a flow that was announced. */
  ghost predicate AcceptsAnnounced(w: Watch) { w.run.accepted ==> w.world.signalled.Some? }

  lemma AcceptStep(w: Watch, e: Event)
    requires Judge(w, e).Fine? && AcceptsAnnounced(w)
    ensures AcceptsAnnounced(Observe(w, e))
    ensures Observe(w, e).run.accepted <==> w.run.accepted || (e.Called? && e.call.Accept?)
  {}

  lemma {:induction false} FlowsAreOwnOrAnnounced(log: seq<Event>, known: seq<Watch>, n: nat)
    requires Obeys(log, known) && n <= |log|
    ensures CallsOffOwnFlow(known[n]) && AcceptsAnnounced(known[n])
  {
    if n > 0 {
      FlowsAreOwnOrAnnounced(log, known, n - 1);
      Follows(log, known, n - 1);
      AskStep(known[n - 1], log[n - 1]);
      AcceptStep(known[n - 1], log[n - 1]);
    }
  }

  /** A run that accepted has done so ever since. */
  lemma {:induction false} AcceptedSince(log: seq<Event>, known: seq<Watch>, k: nat, n: nat)
    requires Obeys(log, known) && k < n <= |log| && log[k].Called? && log[k].call.Accept?
    ensures known[n].run.accepted
  {
    FlowsAreOwnOrAnnounced(log, known, n - 1);
    Follows(log, known, n - 1);
    AcceptStep(known[n - 1], log[n - 1]);
    if k < n - 1 {
      AcceptedSince(log, known, k, n - 1);
    }
  }

  /** A run that asked never accepts. */
  lemma {:induction false} AskedSince(log: seq<Event>, known: seq<Watch>, k: nat, n: nat)
    requires Obeys(log, known) && k < n <= |log| && log[k] == Called(Ask)
    ensures AskRemembered(known[n])
  {
    FlowsAreOwnOrAnnounced(log, known, n - 1);
    Follows(log, known, n - 1);
    AskStep(known[n - 1], log[n - 1]);
    if k < n - 1 {
      AskedSince(log, known, k, n - 1);
      NeverAccepts(known[n - 1], log[n - 1]);
    }
  }

  lemma NeverAccepts(w: Watch, e: Event)
    requires Judge(w, e).Fine? && AskRemembered(w)
    ensures !Observe(w, e).run.accepted
  {}

  /** `acceptVerification` is called at most once, and not at all in a run that
      asked from this side, whatever a peer announced while it did. */
  lemma AcceptAtMostOnce(log: seq<Event>, known: seq<Watch>, i: nat, j: nat)
    requires Obeys(log, known) && i < |log| && log[i].Called? && log[i].call.Accept?
    requires j < |log| && log[j].Called? && j != i
    ensures !log[j].call.Accept? && !log[j].call.Ask?
  {
    var first, later := if i < j then i else j, if i < j then j else i;
    Follows(log, known, later);
    FlowsAreOwnOrAnnounced(log, known, later);
    if log[first].call.Accept? {
      AcceptedSince(log, known, first, later);
    } else if log[first].call.Ask? {
      AskedSince(log, known, first, later);
    }
  }

  // ---- the machine and the requests ----

  predicate MachineMade(e: Event) { e.Resolved? && e.call.Create? }

  predicate MachineRefused(e: Event) { e.Rejected? && e.call.Create? }

  /** Some event among the first `n` is of a kind. */
  ghost predicate Had(log: seq<Event>, n: nat, kind: Event -> bool)
    requires n <= |log|
  {
    exists j :: 0 <= j < n && kind(log[j])
  }

  lemma HadMore(log: seq<Event>, n: nat, kind: Event -> bool)
    requires n < |log|
    ensures Had(log, n + 1, kind) <==> Had(log, n, kind) || kind(log[n])
  {}

  /** Until the machine is made nothing is drained or called off, and nothing
      follows a refusal to make it but the state that says so. */
  ghost predicate MadeOrRefused(w: Watch, made: bool, refused: bool)
  {
    && (made <==> w.run.created)
    && (refused <==> !made && w.wire.last.Threw?)
    && (if made then !w.wire.last.Nothing? && w.wire.pending != Some(Create)
        else
          && w.wire.batch == [] && w.run.callOff.NotCalled? && (w.run.view.finished || w.run.view.flow.None?)
          && (w.wire.pending.Some? ==> w.wire.pending == Some(Create) && !refused)
          && (w.wire.last.Nothing? || (w.wire.last.Threw? && w.wire.last.call.Create?)))
  }

  lemma MachineStep(w: Watch, e: Event, made: bool, refused: bool)
    requires Judge(w, e).Fine? && MadeOrRefused(w, made, refused)
    ensures MadeOrRefused(Observe(w, e), made || MachineMade(e), refused || MachineRefused(e))
    ensures e.Published? ==> (made <==> !refused)
  {}

  lemma {:induction false} MachineSoFar(log: seq<Event>, known: seq<Watch>, n: nat)
    requires Obeys(log, known) && n <= |log|
    ensures MadeOrRefused(known[n], Had(log, n, MachineMade), Had(log, n, MachineRefused))
  {
    if n > 0 {
      MachineSoFar(log, known, n - 1);
      Follows(log, known, n - 1);
      HadMore(log, n - 1, MachineMade);
      HadMore(log, n - 1, MachineRefused);
      MachineStep(known[n - 1], log[n - 1], Had(log, n - 1, MachineMade), Had(log, n - 1, MachineRefused));
    }
  }

  /** A state is shown only once the machine exists, exactly if making it was
      not refused. */
  lemma StatesNeedTheMachine(log: seq<Event>, known: seq<Watch>, i: nat)
    requires Obeys(log, known) && i < |log| && log[i].Published?
    ensures Had(log, i, MachineMade) <==> !Had(log, i, MachineRefused)
  {
    Follows(log, known, i);
    MachineSoFar(log, known, i);
    MachineStep(known[i], log[i], Had(log, i, MachineMade), Had(log, i, MachineRefused));
  }

  /** A request is reported sent only straight after its posting was answered
      with success, and refused only after it was not. */
  lemma ReportedAsAnswered(log: seq<Event>, known: seq<Watch>, i: nat) returns (j: nat)
    requires Obeys(log, known) && i < |log| && log[i].Called? && (log[i].call.MarkSent? || log[i].call.MarkFailed?)
    ensures j < i && OnlyStates(log, j, i) && log[j].Resolved? && log[j].call.Put?
    ensures log[j].call.request.id == log[i].call.id
    ensures log[i].call.MarkSent? <==> 200 <= log[j].reply.status < 300
    ensures log[i].call.MarkFailed? ==> log[i].call.status == log[j].reply.status
  {
    Follows(log, known, i);
    j := LastAnswer(log, known, i);
  }

  /** A sync is given to the library only straight after it was answered with
      200 and could be read. */
  lemma FedAsAnswered(log: seq<Event>, known: seq<Watch>, i: nat) returns (j: nat)
    requires Obeys(log, known) && i < |log| && log[i] == Called(Receive)
    ensures j < i && OnlyStates(log, j, i) && log[j].Resolved? && log[j].call.Sync?
    ensures log[j].reply.status == 200 && log[j].reply.readable
  {
    Follows(log, known, i);
    j := LastAnswer(log, known, i);
  }

  /** A request leaves the library when it is reported sent, or by an eviction,
      from which `to_device` requests are exempt; and nothing else. */
  lemma LeavesTheLibrary(log: seq<Event>, known: seq<Watch>, n: nat, r: Request)
    requires Obeys(log, known) && n < |log| && r in known[n].world.library.queue
    ensures r !in known[n + 1].world.library.queue <==>
      || (log[n].Resolved? && log[n].call == MarkSent(r.id))
      || (log[n] == Happened(Evict(r.id)) && !r.kind.ToDevice?)
  {
    Follows(log, known, n);
  }

  // ---- endings ----

  lemma {:induction false} StaysFinished(log: seq<Event>, known: seq<Watch>, i: nat, n: nat)
    requires Obeys(log, known) && i < n <= |log| && log[i].Published? && log[i].view.finished
    ensures known[n].run.view == log[i].view && known[n].wire.pending.None?
    ensures forall k :: i < k < n ==> !log[k].Published? && !log[k].Called?
  {
    Follows(log, known, n - 1);
    if n - 1 > i {
      StaysFinished(log, known, i, n - 1);
    }
  }

  /** At most one finished state is published, and nothing follows it. */
  lemma FinishedIsLast(log: seq<Event>, known: seq<Watch>, i: nat)
    requires Obeys(log, known) && i < |log| && log[i].Published? && log[i].view.finished
    ensures i == |log| - 1
  {
    StaysFinished(log, known, i, |log|);
    if i + 1 < |log| {
      StaysFinished(log, known, i, i + 1);
      Follows(log, known, i + 1);
    }
  }

  lemma {:induction false} ViewWasPublished(log: seq<Event>, known: seq<Watch>, n: nat) returns (i: nat)
    requires Obeys(log, known) && n <= |log| && known[n].run.view.finished
    ensures i < n && log[i] == Published(known[n].run.view)
  {
    Follows(log, known, n - 1);
    if log[n - 1].Published? {
      i := n - 1;
    } else {
      i := ViewWasPublished(log, known, n - 1);
    }
  }

  /** A run that comes to an end without having been stopped publishes exactly
      one finished state, as its last event. */
  lemma EndsOnce(log: seq<Event>, known: seq<Watch>)
    requires Obeys(log, known) && known[|log|].run.view.finished
    ensures log != [] && log[|log| - 1].Published? && log[|log| - 1].view.finished
    ensures forall i :: 0 <= i < |log| - 1 && log[i].Published? ==> !log[i].view.finished && !log[i].view.failed
  {
    var i := ViewWasPublished(log, known, |log|);
    FinishedIsLast(log, known, i);
    forall k | 0 <= k < |log| - 1 && log[k].Published? ensures !log[k].view.finished && !log[k].view.failed {
      if log[k].view.finished {
        FinishedIsLast(log, known, k);
      }
      Follows(log, known, k);
    }
  }

  /** What a success stands on: the library said done, of a known flow, and a
      code had been on screen. */
  lemma VerifiedMeansDone(log: seq<Event>, known: seq<Watch>, i: nat) returns (read: nat, shown: nat)
    requires Obeys(log, known) && i < |log| && log[i].Published? && log[i].view.finished && !log[i].view.failed
    ensures log[i].view.flow.Some? && log[i].view.stage == Some(Done)
    ensures read < i && OnlyStates(log, read, i)
    ensures log[read].Resolved? && log[read].call == ReadStage(log[i].view.flow.value) && log[read].reply.stage.Done?
    ensures shown < i && log[shown].Published? && log[shown].view.code.Some?
  {
    Follows(log, known, i);
    ReadsItsFlow(log, known, i);
    read := LastAnswer(log, known, i);
    shown := CodeWasShown(log, known, i);
  }

  // ---- calling a flow off ----

  /** The library queued a refusal before `i`, and the homeserver answered its
      posting with success. */
  ghost predicate CalledOffAndDelivered(log: seq<Event>, i: nat)
    requires i <= |log|
  {
    exists j, k :: 0 <= j < k < i && IsCallOff(log[j]) && IsDelivery(log[k], log[j].reply.batch[0])
  }

  ghost predicate IsCallOff(e: Event) { e.Resolved? && e.call.Cancel? && e.reply.batch != [] }

  ghost predicate IsDelivery(e: Event, r: Request) { e.Resolved? && e.call == Put(r) && 200 <= e.reply.status < 300 }

  lemma QueuedStep(w: Watch, e: Event)
    requires Judge(w, e).Fine? && Observe(w, e).run.callOff.Queued?
    ensures if IsCallOff(e) then Observe(w, e).run.callOff.request == e.reply.batch[0] && Observe(w, e).wire.posted == {}
            else w.run.callOff == Observe(w, e).run.callOff
  {}

  /** Where the call-off was queued; nothing was posted of it by then. */
  lemma {:induction false} CallOffAt(log: seq<Event>, known: seq<Watch>, n: nat) returns (j: nat)
    requires Obeys(log, known) && n <= |log| && known[n].run.callOff.Queued?
    ensures j < n && IsCallOff(log[j]) && log[j].reply.batch[0] == known[n].run.callOff.request
    ensures known[j + 1].wire.posted == {}
  {
    Follows(log, known, n - 1);
    QueuedStep(known[n - 1], log[n - 1]);
    if IsCallOff(log[n - 1]) {
      j := n - 1;
    } else {
      j := CallOffAt(log, known, n - 1);
    }
  }

  lemma {:induction false} PostedAt(log: seq<Event>, known: seq<Watch>, j: nat, n: nat, r: Request) returns (k: nat)
    requires Obeys(log, known) && j < n <= |log| && known[j + 1].wire.posted == {} && r in known[n].wire.posted
    ensures j < k < n && IsDelivery(log[k], r)
  {
    Follows(log, known, n - 1);
    if IsDelivery(log[n - 1], r) {
      k := n - 1;
    } else {
      k := PostedAt(log, known, j, n - 1, r);
    }
  }

  /** A call-off the library took stays taken until the run is over. */
  lemma {:induction false} CallOffStays(log: seq<Event>, known: seq<Watch>, j: nat, n: nat)
    requires Obeys(log, known) && j < n <= |log| && IsCallOff(log[j])
    ensures known[n].run.callOff.Queued?
    ensures known[n].wire.pending.Some? ==> !known[n].wire.pending.value.ReadStage? && !known[n].wire.pending.value.Cancel?
  {
    Follows(log, known, n - 1);
    if n - 1 > j {
      CallOffStays(log, known, j, n - 1);
    }
  }

  /** Where the library refused to call the flow off, when it did. */
  lemma {:induction false} RefusedAt(log: seq<Event>, known: seq<Watch>, n: nat) returns (j: nat)
    requires Obeys(log, known) && n <= |log| && (known[n].run.callOff.Unqueued? || known[n].run.callOff.Moved?)
    ensures j < n && log[j].Rejected? && log[j].call.Cancel? && log[j].error.WrongStage?
  {
    Follows(log, known, n - 1);
    if log[n - 1].Rejected? && log[n - 1].call.Cancel? && log[n - 1].error.WrongStage? {
      j := n - 1;
    } else {
      j := RefusedAt(log, known, n - 1);
    }
  }

  /** When the run says it delivered a call-off, it did exactly if the library
      had queued one. Otherwise the library had refused, the flow was still
      unanswered when read again, and the claim has nothing behind it. */
  lemma DeliveredCallOff(log: seq<Event>, known: seq<Watch>, i: nat)
    requires Obeys(log, known) && i < |log| && log[i].Published? && log[i].view.headline == Unanswered(true)
    requires log[i].view.finished
    ensures CalledOffAndDelivered(log, i) <==> exists j :: 0 <= j < i && IsCallOff(log[j])
    ensures !CalledOffAndDelivered(log, i) ==>
      exists j {:trigger log[j]} :: 0 <= j < i && log[j].Rejected? && log[j].call.Cancel? && log[j].error.WrongStage?
  {
    Follows(log, known, i);
    if j :| 0 <= j < i && IsCallOff(log[j]) {
      CallOffStays(log, known, j, i);
    }
    if known[i].run.callOff.Queued? {
      var j := CallOffAt(log, known, i);
      var k := PostedAt(log, known, j, i, known[i].run.callOff.request);
    } else {
      var j := RefusedAt(log, known, i);
    }
  }
}
