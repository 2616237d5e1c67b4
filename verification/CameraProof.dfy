/** The camera proof: five verdicts folded from the states a run publishes, and
    what it takes for all five to pass.
  */
module CameraProof {
  import opened Options
  import opened Protocol
  import opened ScannedCodeLaws

  datatype Progress = Progress(started: bool, flowExists: bool, codeShown: bool, scanReported: bool, finished: bool, failed: bool)

  const INITIAL := Progress(false, false, false, false, false, false)

  function Next(previous: Progress, state: View): Progress
  {
    Progress(true,
             previous.flowExists || state.flow.Some?,
             previous.codeShown || state.code.Some?,
             previous.scanReported || state.stage == Some(CodeScanned),
             previous.finished || state.finished,
             previous.failed || state.failed)
  }

  datatype Check = Check(name: string, ok: bool)

  function Checks(progress: Progress): (checks: seq<Check>)
    ensures |checks| == 5
  {
    [Check("run_started", progress.started),
     Check("flow_exists", progress.flowExists),
     Check("code_shown", progress.codeShown),
     Check("scan_reported", progress.scanReported),
     Check("flow_done", progress.finished && !progress.failed)]
  }

  function Passed(checks: seq<Check>): nat
  {
    if checks == [] then 0 else Passed(checks[..|checks| - 1]) + if checks[|checks| - 1].ok then 1 else 0
  }

  /** The states published by the first `n` events, folded. */
  function Folded(log: seq<Event>, n: nat): Progress
    requires n <= |log|
  {
    if n == 0 then INITIAL
    else if log[n - 1].Published? then Next(Folded(log, n - 1), log[n - 1].view)
    else Folded(log, n - 1)
  }

  // ---- what each check means ----

  predicate Shows(e: Event) { e.Published? }

  predicate ShowsFlow(e: Event) { e.Published? && e.view.flow.Some? }

  predicate ShowsCode(e: Event) { e.Published? && e.view.code.Some? }

  predicate ShowsScan(e: Event) { e.Published? && e.view.stage == Some(CodeScanned) }

  predicate ShowsEnd(e: Event) { e.Published? && e.view.finished }

  predicate ShowsFailure(e: Event) { e.Published? && e.view.failed }

  lemma {:induction false} FoldedMeans(log: seq<Event>, n: nat)
    requires n <= |log|
    ensures Folded(log, n).started <==> Had(log, n, Shows)
    ensures Folded(log, n).flowExists <==> Had(log, n, ShowsFlow)
    ensures Folded(log, n).codeShown <==> Had(log, n, ShowsCode)
    ensures Folded(log, n).scanReported <==> Had(log, n, ShowsScan)
    ensures Folded(log, n).finished <==> Had(log, n, ShowsEnd)
    ensures Folded(log, n).failed <==> Had(log, n, ShowsFailure)
  {
    if n > 0 {
      FoldedMeans(log, n - 1);
      HadMore(log, n - 1, Shows);
      HadMore(log, n - 1, ShowsFlow);
      HadMore(log, n - 1, ShowsCode);
      HadMore(log, n - 1, ShowsScan);
      HadMore(log, n - 1, ShowsEnd);
      HadMore(log, n - 1, ShowsFailure);
    }
  }

  /** The five checks after any number of events: whether a state was shown, one
      with a flow, one with a code, one of a scanned code, and one that is the end
      while none has failed. */
  lemma ChecksMean(log: seq<Event>, n: nat)
    requires n <= |log|
    ensures var checks := Checks(Folded(log, n));
      && |checks| == 5
      && checks[0].name == "run_started" && (checks[0].ok <==> Had(log, n, Shows))
      && checks[1].name == "flow_exists" && (checks[1].ok <==> Had(log, n, ShowsFlow))
      && checks[2].name == "code_shown" && (checks[2].ok <==> Had(log, n, ShowsCode))
      && checks[3].name == "scan_reported" && (checks[3].ok <==> Had(log, n, ShowsScan))
      && checks[4].name == "flow_done" && (checks[4].ok <==> Had(log, n, ShowsEnd) && !Had(log, n, ShowsFailure))
  {
    FoldedMeans(log, n);
  }

  /** What is counted is the checks that passed. */
  lemma {:induction false} PassedCounts(checks: seq<Check>)
    ensures Passed(checks) == |set i | 0 <= i < |checks| && checks[i].ok|
  {
    var now := set i | 0 <= i < |checks| && checks[i].ok;
    if checks == [] {
      assert now == {};
    } else {
      var n := |checks| - 1;
      var before := set i | 0 <= i < n && checks[..n][i].ok;
      PassedCounts(checks[..n]);
      assert now == before + if checks[n].ok then {n} else {};
    }
  }

  // ---- five of five ----

  predicate ConfirmDone(e: Event) { e.Resolved? && e.call.ConfirmScan? }

  predicate GotCode(e: Event) { e.Resolved? && e.call.GetCode? }

  predicate SaysScanned(e: Event) { e.Resolved? && e.call.ReadStage? && e.reply.stage.CodeScanned? }

  /** The confirmation was pressed, and only before any state was published. */
  ghost predicate HeldFromTheStart(log: seq<Event>)
  {
    && (exists p {:trigger log[p]} :: 0 <= p < |log| && ConfirmPress(log[p]))
    && (forall k, p {:trigger log[k], log[p]} :: 0 <= k < p < |log| && ConfirmPress(log[p]) ==> !log[k].Published?)
  }

  /** The library says a code was scanned only once it has handed one over. */
  ghost predicate ScannedAfterCode(log: seq<Event>)
  {
    forall i :: 0 <= i < |log| && SaysScanned(log[i]) ==> exists j :: 0 <= j < i && GotCode(log[j])
  }

  lemma {:induction false} CodeIsKept(log: seq<Event>, known: seq<Watch>, n: nat)
    requires Obeys(log, known) && n <= |log|
    ensures (exists j :: 0 <= j < n && GotCode(log[j])) ==> known[n].run.code.Some?
  {
    if n > 0 {
      CodeIsKept(log, known, n - 1);
      Follows(log, known, n - 1);
    }
  }

  lemma ScannedStep(w: Watch, e: Event)
    requires Judge(w, e).Fine? && (Read(w.wire, CodeScanned) || SaysScanned(e) ==> w.run.code.Some?)
    ensures Read(Observe(w, e).wire, CodeScanned) ==> Observe(w, e).run.code.Some?
  {}

  lemma ScannedNext(log: seq<Event>, known: seq<Watch>, n: nat)
    requires Obeys(log, known) && n < |log| && ScannedAfterCode(log)
    requires Read(known[n].wire, CodeScanned) ==> known[n].run.code.Some?
    ensures Read(known[n + 1].wire, CodeScanned) ==> known[n + 1].run.code.Some?
  {
    if SaysScanned(log[n]) {
      CodeIsKept(log, known, n);
    }
    Follows(log, known, n);
    ScannedStep(known[n], log[n]);
  }

  lemma {:induction false} ScannedMeansCode(log: seq<Event>, known: seq<Watch>, n: nat)
    requires Obeys(log, known) && n <= |log| && ScannedAfterCode(log)
    ensures Read(known[n].wire, CodeScanned) ==> known[n].run.code.Some?
  {
    if n > 0 {
      ScannedMeansCode(log, known, n - 1);
      ScannedNext(log, known, n - 1);
    }
  }

  /** A confirmation takes a state that shows a code. */
  lemma {:induction false} ConfirmNeedsAState(log: seq<Event>, known: seq<Watch>, n: nat)
    requires Obeys(log, known) && n <= |log| && Count(log, n, ConfirmCall) > 0
    ensures exists k :: 0 <= k < n && log[k].Published?
  {
    if ConfirmCall(log[n - 1]) {
      var _, shown := ConfirmOnlyWhenScanned(log, known, n - 1);
    } else {
      ConfirmNeedsAState(log, known, n - 1);
    }
  }

  lemma PressIsEarly(log: seq<Event>, known: seq<Watch>, n: nat)
    requires Obeys(log, known) && HeldFromTheStart(log) && n < |log| && ConfirmPress(log[n])
    ensures Count(log, n, ConfirmCall) == 0
  {
    if Count(log, n, ConfirmCall) > 0 {
      ConfirmNeedsAState(log, known, n);
    }
  }

  lemma HeldCount(w: Watch, e: Event, calls: nat, presses: nat)
    requires Judge(w, e).Fine? && calls + (if w.world.held then 1 else 0) == if presses > 0 then 1 else 0
    requires ConfirmPress(e) ==> calls == 0
    ensures (calls + if ConfirmCall(e) then 1 else 0) + (if Observe(w, e).world.held then 1 else 0)
         == if presses > 0 || ConfirmPress(e) then 1 else 0
  {
    HeldStep(w, e);
    PressIsHeld(w, e);
  }

  lemma HeldNext(log: seq<Event>, known: seq<Watch>, n: nat)
    requires Obeys(log, known) && HeldFromTheStart(log) && n < |log|
    requires Count(log, n, ConfirmCall) + (if known[n].world.held then 1 else 0) == if Count(log, n, ConfirmPress) > 0 then 1 else 0
    ensures Count(log, n + 1, ConfirmCall) + (if known[n + 1].world.held then 1 else 0) == if Count(log, n + 1, ConfirmPress) > 0 then 1 else 0
  {
    Follows(log, known, n);
    if ConfirmPress(log[n]) {
      PressIsEarly(log, known, n);
    }
    HeldCount(known[n], log[n], Count(log, n, ConfirmCall), Count(log, n, ConfirmPress));
  }

  /** The answer is held from the first press until it is used, and used once. */
  lemma {:induction false} HeldUntilUsed(log: seq<Event>, known: seq<Watch>, n: nat)
    requires Obeys(log, known) && HeldFromTheStart(log) && n <= |log|
    ensures Count(log, n, ConfirmCall) + (if known[n].world.held then 1 else 0) == if Count(log, n, ConfirmPress) > 0 then 1 else 0
  {
    if n > 0 {
      HeldUntilUsed(log, known, n - 1);
      HeldNext(log, known, n - 1);
    }
  }

  lemma {:induction false} PressCounts(log: seq<Event>, p: nat, n: nat)
    requires p < n <= |log| && ConfirmPress(log[p])
    ensures Count(log, n, ConfirmPress) > 0
  {
    if n - 1 > p {
      PressCounts(log, p, n - 1);
    }
  }

  /** By the time a state is published the answer has been pressed. */
  lemma PressedByThen(log: seq<Event>, n: nat)
    requires HeldFromTheStart(log) && n < |log| && log[n].Published?
    ensures Count(log, n, ConfirmPress) > 0
  {
    var p :| 0 <= p < |log| && ConfirmPress(log[p]);
    assert log[n].Published?;
    PressCounts(log, p, n);
  }

  lemma PressIsHeld(w: Watch, e: Event)
    ensures ConfirmPress(e) ==> Observe(w, e).world.held
    ensures w.world.held && !ConfirmCall(e) ==> Observe(w, e).world.held
  {}

  /** A duty stands only while the screen shows the scan it comes from. */
  ghost predicate DutyIsFresh(w: Watch)
  {
    !w.wire.duty.Free? ==> Read(w.wire, CodeScanned) && w.run.code.Some? && w.wire.stageShown && w.wire.pending.None?
  }

  /** The scan that was reported has been, or is about to be, answered. */
  ghost predicate Answering(w: Watch, calls: nat)
  {
    !w.wire.duty.Free? || calls == 1
  }

  ghost predicate ScanIsAnswered(w: Watch, calls: nat)
  {
    && DutyIsFresh(w)
    && (Read(w.wire, CodeScanned) && w.wire.stageShown && w.wire.pending.None? ==> Answering(w, calls))
  }

  lemma AnsweringStep(w: Watch, e: Event, calls: nat)
    requires Judge(w, e).Fine? && ScanIsAnswered(w, calls) && calls <= 1
    requires e.Published? ==> (w.world.held <==> calls == 0)
    requires Read(w.wire, CodeScanned) ==> w.run.code.Some?
    requires ConfirmCall(e) ==> calls == 0
    ensures var after, now := Observe(w, e), calls + if ConfirmCall(e) then 1 else 0;
      && ScanIsAnswered(after, now)
      && (Answering(w, calls) ==> Answering(after, now))
      && (e.Published? && e.view.stage == Some(CodeScanned) && w.run.view.stage != Some(CodeScanned) ==> Answering(after, now))
  {}

  /** A confirmation that went out resolved, is outstanding, or ended the run. */
  ghost predicate SentOrLost(w: Watch, calls: nat, confirmed: nat)
  {
    && confirmed <= calls
    && (calls == confirmed + 1 ==>
          && !CallingOff(w.run)
          && ((w.wire.pending.Some? && w.wire.pending.value.ConfirmScan?)
              || (w.wire.pending.None? && w.wire.last.Threw? && w.wire.last.call.ConfirmScan?)))
    && (calls == confirmed ==> !(w.wire.pending.Some? && w.wire.pending.value.ConfirmScan?))
  }

  lemma SentStep(w: Watch, e: Event, calls: nat, confirmed: nat)
    requires Judge(w, e).Fine? && SentOrLost(w, calls, confirmed) && calls <= 1
    requires ConfirmCall(e) ==> calls == 0
    ensures SentOrLost(Observe(w, e), calls + (if ConfirmCall(e) then 1 else 0), confirmed + if ConfirmDone(e) then 1 else 0)
  {}

  /** What holds all along a run with one held confirmation. */
  ghost function OnTrack(w: Watch, progress: Progress, calls: nat, confirmed: nat): Verdict
  {
    if && ScanIsAnswered(w, calls)
       && SentOrLost(w, calls, confirmed)
       && (progress.scanReported ==> Answering(w, calls))
       && (w.run.view.stage == Some(CodeScanned) ==> progress.scanReported)
    then Fine else Breach
  }

  lemma OnTrackStep(w: Watch, e: Event, progress: Progress, calls: nat, confirmed: nat)
    requires Judge(w, e).Fine? && OnTrack(w, progress, calls, confirmed).Fine?
    requires calls + (if w.world.held then 1 else 0) == 1 || (calls == 0 && !w.world.held && !e.Published?)
    requires Read(w.wire, CodeScanned) ==> w.run.code.Some?
    ensures OnTrack(Observe(w, e), if e.Published? then Next(progress, e.view) else progress,
                    calls + (if ConfirmCall(e) then 1 else 0), confirmed + if ConfirmDone(e) then 1 else 0).Fine?
  {
    HeldStep(w, e);
    AnsweringStep(w, e, calls);
    SentStep(w, e, calls, confirmed);
  }

  /** What an event of a run with a held confirmation meets. */
  ghost predicate Meets(log: seq<Event>, known: seq<Watch>, n: nat)
    requires n < |log| && |known| == |log| + 1
  {
    var calls, held := Count(log, n, ConfirmCall), known[n].world.held;
    && Judge(known[n], log[n]).Fine? && known[n + 1] == Observe(known[n], log[n])
    && (calls + (if held then 1 else 0) == 1 || (calls == 0 && !held && !log[n].Published?))
    && (Read(known[n].wire, CodeScanned) ==> known[n].run.code.Some?)
  }

  lemma EveryEventMeets(log: seq<Event>, known: seq<Watch>)
    requires Obeys(log, known) && HeldFromTheStart(log) && ScannedAfterCode(log)
    ensures forall n :: 0 <= n < |log| ==> Meets(log, known, n)
  {
    forall n | 0 <= n < |log| ensures Meets(log, known, n) {
      Follows(log, known, n);
      ScannedMeansCode(log, known, n);
      HeldUntilUsed(log, known, n);
      if log[n].Published? {
        PressedByThen(log, n);
      }
    }
  }

  lemma CountMore(log: seq<Event>, n: nat)
    requires n < |log|
    ensures Count(log, n + 1, ConfirmCall) == Count(log, n, ConfirmCall) + if ConfirmCall(log[n]) then 1 else 0
    ensures Count(log, n + 1, ConfirmDone) == Count(log, n, ConfirmDone) + if ConfirmDone(log[n]) then 1 else 0
    ensures Folded(log, n + 1) == if log[n].Published? then Next(Folded(log, n), log[n].view) else Folded(log, n)
  {}

  lemma {:induction false} StaysOnTrack(log: seq<Event>, known: seq<Watch>, n: nat)
    requires n <= |log| && |known| == |log| + 1 && known[0] == FIRST_WATCH
    requires forall m :: 0 <= m < |log| ==> Meets(log, known, m)
    ensures OnTrack(known[n], Folded(log, n), Count(log, n, ConfirmCall), Count(log, n, ConfirmDone)).Fine?
  {
    if n > 0 {
      var m := n - 1;
      StaysOnTrack(log, known, m);
      assert Meets(log, known, m);
      CountMore(log, m);
      OnTrackStep(known[m], log[m], Folded(log, m), Count(log, m, ConfirmCall), Count(log, m, ConfirmDone));
    }
  }

  // ---- what the folded milestones say of the states ----

  lemma {:induction false} FinishedInFold(log: seq<Event>, n: nat) returns (i: nat)
    requires n <= |log| && Folded(log, n).finished && !Folded(log, n).failed
    ensures i < n && log[i].Published? && log[i].view.finished && !log[i].view.failed
  {
    if log[n - 1].Published? && log[n - 1].view.finished {
      i := n - 1;
    } else {
      i := FinishedInFold(log, n - 1);
    }
  }

  lemma {:induction false} FirstConfirmation(log: seq<Event>, kind: Event -> bool, n: nat) returns (i: nat)
    requires n <= |log| && Count(log, n, kind) > 0
    ensures i < n && kind(log[i])
  {
    if kind(log[n - 1]) {
      i := n - 1;
    } else {
      i := FirstConfirmation(log, kind, n - 1);
    }
  }

  lemma {:induction false} WasCalled(log: seq<Event>, known: seq<Watch>, n: nat, call: Call) returns (i: nat)
    requires Obeys(log, known) && n <= |log| && known[n].wire.pending == Some(call)
    ensures i < n && log[i] == Called(call)
  {
    Follows(log, known, n - 1);
    if log[n - 1] == Called(call) {
      i := n - 1;
    } else {
      i := WasCalled(log, known, n - 1, call);
    }
  }

  lemma {:induction false} AllPassed(checks: seq<Check>)
    ensures Passed(checks) <= |checks|
    ensures Passed(checks) == |checks| <==> forall i :: 0 <= i < |checks| ==> checks[i].ok
  {
    if checks != [] {
      AllPassed(checks[..|checks| - 1]);
    }
  }

  lemma AllFive(progress: Progress)
    requires Passed(Checks(progress)) == 5
    ensures progress.scanReported && progress.finished && !progress.failed
  {
    var checks := Checks(progress);
    AllPassed(checks);
    assert checks[3].ok && checks[4].ok;
  }

  /** In a run that verified, a scan that was reported was confirmed. */
  lemma ScanWasConfirmed(log: seq<Event>, known: seq<Watch>, i: nat)
    requires Obeys(log, known) && HeldFromTheStart(log) && ScannedAfterCode(log)
    requires i + 1 == |log| && log[i].Published? && log[i].view.finished && !log[i].view.failed
    requires Folded(log, i + 1).scanReported
    ensures Count(log, i + 1, ConfirmDone) == 1
  {
    Follows(log, known, i);
    EveryEventMeets(log, known);
    StaysOnTrack(log, known, i);
    HeldUntilUsed(log, known, i);
    PressedByThen(log, i);
  }

  /** Five out of five means what it says. Take a run with a confirmation
      held from the start, against a library that says a code was scanned only
      once it has handed one over. If all five checks pass, a code was shown,
      `confirmScan` resolved exactly once, after it, and the last event is a
      finished state, not failed, of a flow the library says is done. */
  lemma FiveOfFive(log: seq<Event>, known: seq<Watch>) returns (shown: nat, confirmed: nat)
    requires Obeys(log, known) && HeldFromTheStart(log) && ScannedAfterCode(log)
    requires Passed(Checks(Folded(log, |log|))) == 5
    ensures shown < confirmed < |log|
    ensures log[shown].Published? && log[shown].view.code.Some?
    ensures ConfirmDone(log[confirmed]) && Count(log, |log|, ConfirmDone) == 1
    ensures var last := log[|log| - 1];
      last.Published? && last.view.finished && !last.view.failed && last.view.stage == Some(Done)
  {
    AllFive(Folded(log, |log|));
    EndsVerified(log, known);
    ScanWasConfirmed(log, known, |log| - 1);
    confirmed := FirstConfirmation(log, ConfirmDone, |log|);
    shown := ShownBefore(log, known, confirmed);
  }

  /** A run whose states come to finished and not failed ends in one that is. */
  lemma EndsVerified(log: seq<Event>, known: seq<Watch>)
    requires Obeys(log, known) && Folded(log, |log|).finished && !Folded(log, |log|).failed
    ensures log != [] && log[|log| - 1].Published?
    ensures var last := log[|log| - 1].view; last.finished && !last.failed && last.stage == Some(Done)
  {
    var i := FinishedInFold(log, |log|);
    FinishedIsLast(log, known, i);
    var _, _ := VerifiedMeansDone(log, known, i);
  }

  lemma ShownBefore(log: seq<Event>, known: seq<Watch>, confirmed: nat) returns (shown: nat)
    requires Obeys(log, known) && confirmed < |log| && ConfirmDone(log[confirmed])
    ensures shown < confirmed && log[shown].Published? && log[shown].view.code.Some?
  {
    Follows(log, known, confirmed);
    var called := WasCalled(log, known, confirmed, log[confirmed].call);
    var _, before := ConfirmOnlyWhenScanned(log, known, called);
    shown := before;
  }
}
