/** Two scripts against which the run says more than is so: the homeserver is
    told of no call-off, and the screen says the run called the flow off; no
    machine is made, and a state is shown.
  */
module ScannedCodeWitness {
  import opened Options
  import opened Protocol
  import opened Course
  import opened ScannedCodeRun
  import opened ScannedCodeEndings
  import opened ScannedCodeLaws
  import opened CameraProof

  /** What some start of a script's course leaves known, without a call-off. */
  ghost predicate Reached(script: seq<Turn>, w: Watch)
  {
    exists log: seq<Event>, known: seq<Watch> :: Traced(script, log, known) && known[|log|] == w && NoCallOff(log)
  }

  ghost predicate NoCallOff(log: seq<Event>)
  {
    forall e :: e in log ==> !IsCallOff(e)
  }

  lemma Then(script: seq<Turn>, w: Watch, e: Event) returns (next: Watch)
    requires Reached(script, w) && Step(script, w) == Some(e) && !IsCallOff(e)
    ensures Reached(script, next) && next == Observe(w, e)
  {
    var log, known :| Traced(script, log, known) && known[|log|] == w && NoCallOff(log);
    next := Observe(w, e);
    TracedMore(script, log, known, e);
    assert NoCallOff(log + [e]);
  }

  // ---- a call-off that was refused ----

  /** Flow 7, asked for and unanswered, whose time is up. */
  const ANSWER := Reply([], 200, true, None, 7, Requested, true, 0)

  const ANSWERED := Turn([], Resolves(ANSWER))

  /** The person asks while the machine is made; every call is answered but the
      one that calls the flow off, whose stage, the library says, has moved. */
  const UNANSWERED := [Turn([Asks], Resolves(ANSWER)), ANSWERED, ANSWERED, ANSWERED, ANSWERED, ANSWERED,
                       Turn([], Rejects(WrongStage)), ANSWERED, ANSWERED]

  /** The next call, in a turn that answers it. */
  lemma Answers(w: Watch, c: Call) returns (next: Watch)
    requires Reached(UNANSWERED, w) && w.wire.pending.None? && Due(w) == Some(Called(c))
    requires w.wire.turns < |UNANSWERED| && UNANSWERED[w.wire.turns] == ANSWERED && w.world.library.queue == [] && !c.Cancel?
    ensures Reached(UNANSWERED, next) && next == AfterReply(AfterCall(w, c), c, ANSWER)
  {
    next := Then(UNANSWERED, w, Called(c));
    next := Then(UNANSWERED, next, Resolved(c, ANSWER));
  }

  const WAITING := FIRST_VIEW.(headline := Waiting)
  const ASKED := FIRST_VIEW.(headline := Asked, flow := Some(7))
  const SHOWN := ASKED.(stage := Some(Requested))
  const CLAIM := SHOWN.(headline := Unanswered(true), finished := true, failed := true)

  function Meanwhile(askHeld: bool): World
  {
    World(false, askHeld, false, None, true, 0, Library([], 0))
  }

  lemma MachineIsMade() returns (w: Watch)
    ensures Reached(UNANSWERED, w)
    ensures w == Watch(World(false, true, false, None, true, 1, Library([], 0)),
                       Run(true, 0, None, false, NotCalled, 0, None, false, FIRST_VIEW),
                       Wire(None, 1, Answered(Create, ANSWER), Create, [], {}, 0, false, Free))
  {
    assert Traced(UNANSWERED, [], [FIRST_WATCH]) && NoCallOff([]);
    w := Then(UNANSWERED, FIRST_WATCH, Called(Create));
    w := Then(UNANSWERED, w, Happened(Asks));
    w := Then(UNANSWERED, w, Resolved(Create, ANSWER));
    w := Then(UNANSWERED, w, Subscribed);
  }

  lemma KeysArePublished() returns (w: Watch)
    ensures Reached(UNANSWERED, w)
    ensures w == Watch(Meanwhile(true),
                       Run(true, 0, None, false, NotCalled, 0, None, false, WAITING),
                       Wire(None, 2, Answered(Take, ANSWER), Create, [], {}, 0, true, Free))
  {
    w := MachineIsMade();
    w := Then(UNANSWERED, w, Published(FIRST_VIEW.(headline := PublishingKeys)));
    w := Answers(w, Take);
    w := Then(UNANSWERED, w, Published(WAITING));
  }

  lemma FlowIsAskedFor() returns (w: Watch)
    ensures Reached(UNANSWERED, w)
    ensures w == Watch(Meanwhile(false),
                       Run(true, 0, Some(7), false, NotCalled, 0, None, false, WAITING),
                       Wire(None, 4, Answered(Take, ANSWER), Ask, [], {}, 0, false, Free))
  {
    w := KeysArePublished();
    w := Answers(w, Ask);
    w := Answers(w, Take);
  }

  lemma FlowIsShown() returns (w: Watch)
    ensures Reached(UNANSWERED, w)
    ensures w == Watch(Meanwhile(false),
                       Run(true, 0, Some(7), false, NotCalled, 0, None, false, ASKED),
                       Wire(None, 4, Answered(Take, ANSWER), Ask, [], {}, 0, true, Free))
  {
    w := FlowIsAskedFor();
    w := Then(UNANSWERED, w, Published(FIRST_VIEW.(headline := Asked)));
    w := Then(UNANSWERED, w, Published(ASKED));
  }

  lemma NobodyAnswers() returns (w: Watch)
    ensures Reached(UNANSWERED, w)
    ensures w == Watch(Meanwhile(false),
                       Run(true, 0, Some(7), false, NotCalled, 2, None, false, SHOWN),
                       Wire(None, 6, Answered(ReadStage(7), ANSWER), ReadStage(7), [], {}, 0, true, Free))
  {
    w := FlowIsShown();
    w := Answers(w, ReadStage(7));
    w := Answers(w, ReadStage(7));
    w := Then(UNANSWERED, w, Published(SHOWN));
  }

  lemma CallOffIsRefused() returns (w: Watch)
    ensures Reached(UNANSWERED, w)
    ensures w == Watch(Meanwhile(false),
                       Run(true, 0, Some(7), false, Moved, 2, None, false, SHOWN),
                       Wire(None, 7, Threw(Cancel(7), WrongStage), Cancel(7), [], {}, 0, false, Free))
  {
    w := NobodyAnswers();
    w := Then(UNANSWERED, w, Called(Cancel(7)));
    w := Then(UNANSWERED, w, Rejected(Cancel(7), WrongStage));
  }

  lemma NothingIsOutstanding() returns (w: Watch)
    ensures Reached(UNANSWERED, w)
    ensures w == Watch(Meanwhile(false),
                       Run(true, 0, Some(7), false, Unqueued, 3, None, false, SHOWN),
                       Wire(None, 9, Answered(Take, ANSWER), ReadStage(7), [], {}, 1, false, Free))
  {
    w := CallOffIsRefused();
    w := Answers(w, ReadStage(7));
    w := Then(UNANSWERED, w, Published(SHOWN));
    w := Answers(w, Take);
  }

  lemma TheClaim() returns (log: seq<Event>, known: seq<Watch>)
    ensures Traced(UNANSWERED, log, known) && Step(UNANSWERED, known[|log|]).None?
    ensures log != [] && log[|log| - 1] == Published(CLAIM) && NoCallOff(log)
  {
    var w := NothingIsOutstanding();
    log, known :| Traced(UNANSWERED, log, known) && known[|log|] == w && NoCallOff(log);
    TracedMore(UNANSWERED, log, known, Published(CLAIM));
    log, known := log + [Published(CLAIM)], known + [Observe(w, Published(CLAIM))];
  }

  /** Whatever a run against this script leaves behind ends in the claim that the
      flow was called off, and no call-off was queued, let alone delivered. */
  lemma NothingWasCalledOff(log: seq<Event>, settled: bool, known: seq<Watch>)
    requires Lawful(UNANSWERED, log, settled, known)
    ensures settled && log != [] && log[|log| - 1] == Published(CLAIM)
    ensures NoCallOff(log) && !CalledOffAndDelivered(log, |log| - 1)
  {
    var log', known' := TheClaim();
    CourseIsSettled(UNANSWERED, log, known, log', known');
  }

  /** And there is such a run. */
  method ClaimNothing() returns (log: seq<Event>)
    ensures log != [] && log[|log| - 1] == Published(CLAIM) && !CalledOffAndDelivered(log, |log| - 1)
  {
    var settled: bool;
    log, settled := Start(UNANSWERED);
    ghost var known :| Lawful(UNANSWERED, log, settled, known);
    NothingWasCalledOff(log, settled, known);
  }

  // ---- a machine that was refused ----

  const REFUSED := [Turn([], Rejects(NotACryptoError))]

  const NO_MACHINE := FIRST_VIEW.(headline := StoppedOnError(NotACryptoError), finished := true, failed := true)

  lemma RefusedCourse() returns (known: seq<Watch>)
    ensures Traced(REFUSED, [Called(Create), Rejected(Create, NotACryptoError), Published(NO_MACHINE)], known)
    ensures |known| == 4 && Step(REFUSED, known[3]).None?
  {
    var called := Observe(FIRST_WATCH, Called(Create));
    var rejected := Observe(called, Rejected(Create, NotACryptoError));
    known := [FIRST_WATCH, called, rejected, Observe(rejected, Published(NO_MACHINE))];
  }

  /** What a run leaves behind whose machine is refused at once. */
  lemma NoMachineWasMade(log: seq<Event>, settled: bool, known: seq<Watch>)
    requires Lawful(REFUSED, log, settled, known)
    ensures settled && log == [Called(Create), Rejected(Create, NotACryptoError), Published(NO_MACHINE)]
    ensures Checks(Folded(log, |log|))[0] == Check("run_started", true)
  {
    var known' := RefusedCourse();
    CourseIsSettled(REFUSED, log, known, [Called(Create), Rejected(Create, NotACryptoError), Published(NO_MACHINE)], known');
    assert log[2].Published?;
  }

  /** What ends a run on an error is published last, and so is folded in. */
  lemma EndIsFolded(log: seq<Event>, n: nat, error: Error)
    requires EndsShowing(log, n, error)
    ensures Folded(log, |log|).started
  {
    assert Folded(log, |log|) == Next(Folded(log, n), log[n].view);
  }

  lemma RefusedIsStarted(script: seq<Turn>, log: seq<Event>, settled: bool, known: seq<Watch>, k: nat)
    requires Lawful(script, log, settled, known) && k < |log| && MachineRefused(log[k])
    ensures Folded(log, |log|).started && !Had(log, |log|, MachineMade)
  {
    Follows(log, known, k);
    MachineSoFar(log, known, k);
    RejectionEnds(script, log, settled, known, k);
    EndIsFolded(log, k + 1, log[k].error);
    MachineSoFar(log, known, |log|);
    assert Had(log, |log|, MachineRefused);
  }

  lemma {:induction false} StartedInFold(log: seq<Event>, n: nat) returns (i: nat)
    requires n <= |log| && Folded(log, n).started
    ensures i < n && log[i].Published?
  {
    if log[n - 1].Published? {
      i := n - 1;
    } else {
      i := StartedInFold(log, n - 1);
    }
  }

  /** The check that the run started passes without a machine in exactly the
      runs whose machine was refused. */
  lemma StartedWithoutMachine(script: seq<Turn>, log: seq<Event>, settled: bool, known: seq<Watch>)
    requires Lawful(script, log, settled, known)
    ensures Checks(Folded(log, |log|))[0].ok && !Had(log, |log|, MachineMade) <==> Had(log, |log|, MachineRefused)
  {
    if k :| 0 <= k < |log| && MachineRefused(log[k]) {
      RefusedIsStarted(script, log, settled, known, k);
    } else if Folded(log, |log|).started {
      var i := StartedInFold(log, |log|);
      StatesNeedTheMachine(log, known, i);
    }
  }
}
