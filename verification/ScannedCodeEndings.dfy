/** What a run does about a failure: it shows it and ends, unless the failure is
    one of those it carries on after. This takes the course of a run, since the
    rules alone do not say that it goes on.
  */
module ScannedCodeEndings {
  import opened Options
  import opened Protocol
  import opened Course
  import opened ScannedCodeLaws
  import opened ScannedCodeRun

  /** No call is outstanding once the run is over, and no sync while it calls the
      flow off. */
  lemma {:induction false} OutstandingIsUnfinished(log: seq<Event>, known: seq<Watch>, n: nat)
    requires Obeys(log, known) && n <= |log|
    ensures known[n].wire.pending.Some? ==> !known[n].run.view.finished
    ensures known[n].wire.pending.Some? && known[n].wire.pending.value.Sync? ==> !CallingOff(known[n].run)
  {
    if n > 0 {
      OutstandingIsUnfinished(log, known, n - 1);
      Follows(log, known, n - 1);
    }
  }

  /** The run's last event is the state that shows the error. */
  ghost predicate EndsShowing(log: seq<Event>, n: nat, error: Error)
  {
    && n + 1 == |log| && log[n].Published?
    && log[n].view.headline == StoppedOnError(error) && log[n].view.finished && log[n].view.failed
  }

  /** What is due is what happens next, in a run that leaves nothing undone, and
      nothing else does. */
  lemma DueHappens(script: seq<Turn>, log: seq<Event>, settled: bool, known: seq<Watch>, n: nat)
    requires Lawful(script, log, settled, known) && n <= |log| && known[n].wire.pending.None?
    ensures n < |log| <==> Due(known[n]).Some?
    ensures n < |log| ==> log[n] == Due(known[n]).value && known[n + 1] == Observe(known[n], log[n])
  {
    if n < |log| {
      Proceeds(script, log, known, n);
    }
  }

  lemma UnhandledIsShown(script: seq<Turn>, log: seq<Event>, settled: bool, known: seq<Watch>, n: nat, error: Error)
    requires Lawful(script, log, settled, known) && n <= |log| && known[n].wire.pending.None? && !known[n].run.view.finished
    requires Failure(known[n].wire) == Some(error)
    ensures n < |log| && (EndsShowing(log, n, error) <==> !Handled(known[n].run, known[n].wire))
  {
    DueHappens(script, log, settled, known, n);
    if !Handled(known[n].run, known[n].wire) {
      FinishedIsLast(log, known, n);
    }
  }

  /** The failures a run carries on after: a code that is not there, a call-off
      refused because the stage moved, and all that the drains of a call-off meet. */
  ghost predicate CarriesOn(w: Watch, call: Call, error: Error)
  {
    || (call.GetCode? && !error.NotACryptoError?)
    || (call.Cancel? && error.WrongStage?)
    || (CallingOff(w.run) && !call.Sleep?)
  }

  /** A rejected call ends the run, with its own error on screen, exactly unless
      it is one the run carries on after. */
  lemma RejectionEnds(script: seq<Turn>, log: seq<Event>, settled: bool, known: seq<Watch>, k: nat)
    requires Lawful(script, log, settled, known) && k < |log| && log[k].Rejected?
    ensures EndsShowing(log, k + 1, log[k].error) <==> !CarriesOn(known[k], log[k].call, log[k].error)
  {
    Follows(log, known, k);
    OutstandingIsUnfinished(log, known, k);
    UnhandledIsShown(script, log, settled, known, k + 1, log[k].error);
  }

  /** A sync answered with anything but 200, or with what cannot be read, ends
      the run; every other one is fed to the library. */
  lemma BadSyncEnds(script: seq<Turn>, log: seq<Event>, settled: bool, known: seq<Watch>, k: nat)
    requires Lawful(script, log, settled, known) && k < |log| && log[k].Resolved? && log[k].call.Sync?
    ensures EndsShowing(log, k + 1, NotACryptoError) <==> log[k].reply.status != 200 || !log[k].reply.readable
    ensures k + 1 < |log| && log[k + 1] == Called(Receive) <==> log[k].reply.status == 200 && log[k].reply.readable
  {
    Follows(log, known, k);
    OutstandingIsUnfinished(log, known, k);
    if log[k].reply.status != 200 || !log[k].reply.readable {
      UnhandledIsShown(script, log, settled, known, k + 1, NotACryptoError);
    } else {
      DueHappens(script, log, settled, known, k + 1);
    }
  }

  /** A kind without an endpoint, or a body without an event type. */
  predicate NowhereToGo(r: Request)
  {
    match r.kind
    case Unmapped(_) => true
    case ToDevice => !r.readable
    case _ => false
  }

  /** A drain ends the run exactly at a request that has nowhere to go, and not at
      all when it is one of a call-off; it posts every other one. */
  lemma NoEndpointEnds(script: seq<Turn>, log: seq<Event>, settled: bool, known: seq<Watch>, k: nat)
    requires Lawful(script, log, settled, known) && k < |log| && log[k].Resolved?
    requires log[k].call.Take? || log[k].call.MarkSent? || log[k].call.MarkFailed?
    requires known[k + 1].wire.batch != []
    ensures EndsShowing(log, k + 1, NotACryptoError) <==> NowhereToGo(known[k + 1].wire.batch[0]) && !CallingOff(known[k].run)
    ensures k + 1 < |log| && log[k + 1] == Called(Put(known[k + 1].wire.batch[0])) <==> !NowhereToGo(known[k + 1].wire.batch[0])
  {
    Follows(log, known, k);
    OutstandingIsUnfinished(log, known, k);
    if NowhereToGo(known[k + 1].wire.batch[0]) {
      UnhandledIsShown(script, log, settled, known, k + 1, NotACryptoError);
    } else {
      DueHappens(script, log, settled, known, k + 1);
    }
  }
}
