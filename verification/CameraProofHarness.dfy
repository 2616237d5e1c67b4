/** The harness that watches a camera-proof run: what it prints, and when. */
module CameraProofHarness {
  import opened Options
  import opened Protocol
  import opened Course
  import opened ScannedCodeLaws
  import opened CameraProof
  import opened Sequences
  import Runner = ScannedCodeRun

  datatype Line =
    | RunStarted | StageLine(stage: Option<Stage>) | CodeLine(code: Code) | ScanLine
    | FailedLine(headline: Headline) | CheckLine(check: Check) | SummaryLine(passed: nat, total: nat)

  function TheSummary(progress: Progress): Line
  {
    SummaryLine(Passed(Checks(progress)), |Checks(progress)|)
  }

  /** The summary lines among some lines. */
  function Summaries(lines: seq<Line>): (found: seq<Line>)
    ensures forall line :: line in found ==> line in lines
  {
    if lines == [] then [] else Summaries(lines[..|lines| - 1]) + if lines[|lines| - 1].SummaryLine? then [lines[|lines| - 1]] else []
  }

  lemma {:induction false} SummariesJoin(a: seq<Line>, b: seq<Line>)
    ensures Summaries(a + b) == Summaries(a) + Summaries(b)
  {
    if b == [] {
      assert a + b == a;
    } else {
      assert (a + b)[..|a + b| - 1] == a + b[..|b| - 1];
      SummariesJoin(a, b[..|b| - 1]);
    }
  }

  lemma {:induction false} SummaryIn(lines: seq<Line>, line: Line)
    requires line in lines && line.SummaryLine?
    ensures line in Summaries(lines)
  {
    if lines[|lines| - 1] != line {
      assert line in lines[..|lines| - 1];
      SummaryIn(lines[..|lines| - 1], line);
    }
  }

  lemma {:induction false} NoSummaries(lines: seq<Line>)
    requires forall line :: line in lines ==> !line.SummaryLine?
    ensures Summaries(lines) == []
  {
    if lines != [] {
      NoSummaries(lines[..|lines| - 1]);
    }
  }

  /** The failure's own words, and the five checks in order. */
  function CheckLines(progress: Progress, state: View): seq<Line>
  {
    var checks := Checks(progress);
    (if state.failed then [FailedLine(state.headline)] else [])
    + [CheckLine(checks[0]), CheckLine(checks[1]), CheckLine(checks[2]), CheckLine(checks[3]), CheckLine(checks[4])]
  }

  /** The verdict: those lines and their count. */
  function VerdictLines(progress: Progress, state: View): seq<Line>
  {
    CheckLines(progress, state) + [TheSummary(progress)]
  }

  /** The lines of the milestones that a state is the first to reach. */
  function Milestones(started: bool, stageMoved: bool, firstCode: bool, firstScan: bool, state: View): seq<Line>
    requires firstCode ==> state.code.Some?
  {
    (if started then [] else [RunStarted])
    + (if stageMoved then [StageLine(state.stage)] else [])
    + (if firstCode then [CodeLine(state.code.value)] else [])
    + (if firstScan then [ScanLine] else [])
  }

  /** The lines a state calls for, given what those before it came to. */
  function LinesFor(before: Progress, lastStage: Option<Stage>, state: View): seq<Line>
  {
    Milestones(before.started, state.stage != lastStage, !before.codeShown && state.code.Some?,
               !before.scanReported && state.stage == Some(CodeScanned), state)
    + if !before.finished && state.finished then VerdictLines(Next(before, state), state) else []
  }

  class Harness {
    var progress: Progress
    var lastStage: Option<Stage>
    var loggedStarted: bool
    var loggedCode: bool
    var printed: bool
    var console: seq<Line>

    /** The flags say what the fold says. */
    ghost predicate Valid()
      reads this
    {
      loggedStarted == progress.started && loggedCode == progress.codeShown && printed == progress.finished
    }

    constructor ()
      ensures Valid() && progress == INITIAL && lastStage == None && console == []
    {
      progress, lastStage, console := INITIAL, None, [];
      loggedStarted, loggedCode, printed := false, false, false;
    }

    /** The five checks, in order, and their count. */
    method LogChecks(progress: Progress)
      modifies this`console
      ensures |console| == |old(console)| + 6 && console[..|old(console)|] == old(console)
      ensures forall i :: 0 <= i < 5 ==> console[|old(console)| + i] == CheckLine(Checks(progress)[i])
      ensures console[|old(console)| + 5] == SummaryLine(Passed(Checks(progress)), 5)
    {
      var checks := Checks(progress);
      var i := 0;
      while i < |checks|
        invariant 0 <= i <= |checks| && |console| == |old(console)| + i && console[..|old(console)|] == old(console)
        invariant forall j :: 0 <= j < i ==> console[|old(console)| + j] == CheckLine(checks[j])
      {
        console := console + [CheckLine(checks[i])];
        i := i + 1;
      }
      console := console + [SummaryLine(Passed(checks), |checks|)];
    }

    /** One line per milestone, not per state. */
    method LogMilestones(state: View, hadCode: bool, hadScan: bool)
      modifies this`lastStage, this`loggedStarted, this`loggedCode, this`console
      ensures loggedStarted && lastStage == state.stage
      ensures var firstCode := !old(loggedCode) && !hadCode && progress.codeShown && state.code.Some?;
        && loggedCode == (old(loggedCode) || firstCode)
        && console == old(console) + Milestones(old(loggedStarted), state.stage != old(lastStage), firstCode,
                                                !hadScan && progress.scanReported, state)
    {
      var lines := [];
      if !loggedStarted {
        loggedStarted := true;
        lines := [RunStarted];
      }
      var moved := [];
      if state.stage != lastStage {
        lastStage := state.stage;
        moved := [StageLine(state.stage)];
      }
      var code := [];
      if !loggedCode && !hadCode && progress.codeShown && state.code.Some? {
        loggedCode := true;
        code := [CodeLine(state.code.value)];
      }
      var scan := if !hadScan && progress.scanReported then [ScanLine] else [];
      console := console + (lines + moved + code + scan);
    }

    /** The verdict, once, when the run is over. */
    method LogVerdict(state: View)
      requires progress.finished && !printed
      modifies this`printed, this`console
      ensures printed && console == old(console) + VerdictLines(progress, state)
    {
      printed := true;
      if state.failed {
        console := console + [FailedLine(state.headline)];
      }
      LogChecks(progress);
    }

    method Publish(state: View)
      requires Valid()
      modifies this
      ensures Valid() && progress == Next(old(progress), state) && lastStage == state.stage
      ensures console == old(console) + LinesFor(old(progress), old(lastStage), state)
    {
      var hadCode, hadScan := progress.codeShown, progress.scanReported;
      progress := Next(progress, state);
      LogMilestones(state, hadCode, hadScan);
      ghost var before := console;
      if progress.finished && !printed {
        LogVerdict(state);
      }
      Associate(old(console), before[|old(console)|..], console[|before|..]);
    }
  }

  // ---- the whole console ----

  /** The stage of the latest state before `n`. */
  function StageBefore(log: seq<Event>, n: nat): Option<Stage>
    requires n <= |log|
  {
    if n == 0 then None else if log[n - 1].Published? then log[n - 1].view.stage else StageBefore(log, n - 1)
  }

  /** What the harness says of one event, by what the log holds up to it. */
  ghost function Said(log: seq<Event>, m: nat): seq<Line>
    requires m < |log|
  {
    if !log[m].Published? then []
    else
      var state := log[m].view;
      Milestones(Had(log, m, Shows), state.stage != StageBefore(log, m), !Had(log, m, ShowsCode) && state.code.Some?,
                 !Had(log, m, ShowsScan) && state.stage == Some(CodeScanned), state)
      + if !Had(log, m, ShowsEnd) && state.finished then VerdictLines(Folded(log, m + 1), state) else []
  }

  ghost function Transcript(log: seq<Event>, n: nat): seq<Line>
    requires n <= |log|
  {
    if n == 0 then [] else Transcript(log, n - 1) + Said(log, n - 1)
  }

  lemma SaidIsLinesFor(log: seq<Event>, m: nat)
    requires m < |log| && log[m].Published?
    ensures Said(log, m) == LinesFor(Folded(log, m), StageBefore(log, m), log[m].view)
  {
    FoldedMeans(log, m);
  }

  /** The harness shown every state a run publishes, in order. */
  method Present(log: seq<Event>) returns (console: seq<Line>)
    ensures console == Transcript(log, |log|)
  {
    var harness := new Harness();
    var n := 0;
    while n < |log|
      invariant 0 <= n <= |log| && harness.Valid()
      invariant harness.progress == Folded(log, n) && harness.lastStage == StageBefore(log, n)
      invariant harness.console == Transcript(log, n)
    {
      if log[n].Published? {
        SaidIsLinesFor(log, n);
        harness.Publish(log[n].view);
      }
      n := n + 1;
    }
    console := harness.console;
  }

  // ---- what each line means ----

  /** A state has the console say a line: the first state of all, of a code, of a
      scan, or of an end, or one whose stage is not that of the state before. */
  ghost predicate Prompts(log: seq<Event>, m: nat, line: Line)
    requires m < |log|
  {
    && log[m].Published?
    && var v := log[m].view;
       match line
       case RunStarted => !Had(log, m, Shows)
       case StageLine(stage) => v.stage == stage && stage != StageBefore(log, m)
       case CodeLine(code) => v.code == Some(code) && !Had(log, m, ShowsCode)
       case ScanLine => v.stage == Some(CodeScanned) && !Had(log, m, ShowsScan)
       case FailedLine(headline) => v.finished && v.failed && v.headline == headline && !Had(log, m, ShowsEnd)
       case CheckLine(check) => v.finished && !Had(log, m, ShowsEnd) && check in Checks(Folded(log, m + 1))
       case SummaryLine(passed, total) =>
         v.finished && !Had(log, m, ShowsEnd) && passed == Passed(Checks(Folded(log, m + 1))) && total == 5
  }

  lemma MilestoneIn(started: bool, stageMoved: bool, firstCode: bool, firstScan: bool, state: View, line: Line)
    requires firstCode ==> state.code.Some?
    ensures line in Milestones(started, stageMoved, firstCode, firstScan, state) <==>
      match line
      case RunStarted => !started
      case StageLine(stage) => stageMoved && stage == state.stage
      case CodeLine(code) => firstCode && state.code == Some(code)
      case ScanLine => firstScan
      case _ => false
  {}

  lemma VerdictIn(progress: Progress, state: View, line: Line)
    ensures line in VerdictLines(progress, state) <==>
      match line
      case FailedLine(headline) => state.failed && state.headline == headline
      case CheckLine(check) => check in Checks(progress)
      case SummaryLine(passed, total) => passed == Passed(Checks(progress)) && total == 5
      case _ => false
  {
    var checks := Checks(progress);
    assert forall check :: check in checks <==> exists i :: 0 <= i < 5 && checks[i] == check;
  }

  lemma SaidMeans(log: seq<Event>, m: nat, line: Line)
    requires m < |log|
    ensures line in Said(log, m) <==> Prompts(log, m, line)
  {
    if log[m].Published? {
      var v := log[m].view;
      MilestoneIn(Had(log, m, Shows), v.stage != StageBefore(log, m), !Had(log, m, ShowsCode) && v.code.Some?,
                  !Had(log, m, ShowsScan) && v.stage == Some(CodeScanned), v, line);
      VerdictIn(Folded(log, m + 1), v, line);
    }
  }

  ghost predicate Prompted(log: seq<Event>, n: nat, line: Line)
    requires n <= |log|
  {
    exists m :: 0 <= m < n && Prompts(log, m, line)
  }

  lemma TranscriptIn(log: seq<Event>, n: nat, line: Line)
    requires n < |log|
    ensures line in Transcript(log, n + 1) <==> line in Transcript(log, n) || line in Said(log, n)
  {}

  lemma PromptedMore(log: seq<Event>, n: nat, line: Line)
    requires n < |log|
    ensures Prompted(log, n + 1, line) <==> Prompted(log, n, line) || Prompts(log, n, line)
  {}

  ghost function Tells(log: seq<Event>, n: nat, line: Line): Verdict
    requires n <= |log|
  {
    if line in Transcript(log, n) <==> Prompted(log, n, line) then Fine else Breach
  }

  lemma TellsMore(log: seq<Event>, n: nat, line: Line)
    requires n < |log| && Tells(log, n, line).Fine?
    ensures Tells(log, n + 1, line).Fine?
  {
    SaidMeans(log, n, line);
    TranscriptIn(log, n, line);
    PromptedMore(log, n, line);
  }

  lemma {:induction false} TellsSoFar(log: seq<Event>, n: nat, line: Line)
    requires n <= |log|
    ensures Tells(log, n, line).Fine?
  {
    if n > 0 {
      TellsSoFar(log, n - 1, line);
      TellsMore(log, n - 1, line);
    }
  }

  /** Every line on the console was prompted by a state, and every line a state
      prompts is there. */
  lemma ConsoleTells(log: seq<Event>, n: nat, line: Line)
    requires n <= |log|
    ensures line in Transcript(log, n) <==> exists m :: 0 <= m < n && Prompts(log, m, line)
  {
    TellsSoFar(log, n, line);
  }

  function VerdictAfter(log: seq<Event>, m: nat): seq<Line>
    requires m < |log|
  {
    if Folded(log, m + 1).finished && !Folded(log, m).finished then [TheSummary(Folded(log, m + 1))] else []
  }

  /** The verdicts a run's states call for: one, when it is first over. */
  function Verdicts(log: seq<Event>, n: nat): seq<Line>
    requires n <= |log|
  {
    if n == 0 then []
    else Verdicts(log, n - 1) + VerdictAfter(log, n - 1)
  }

  lemma SummariesMore(lines: seq<Line>, a: seq<Line>, b: seq<Line>, x: seq<Line>, y: seq<Line>)
    requires lines == a + b && Summaries(a) == x && Summaries(b) == y
    ensures Summaries(lines) == x + y
  {
    SummariesJoin(a, b);
  }

  lemma OneSummary(progress: Progress, state: View)
    ensures Summaries(VerdictLines(progress, state)) == [TheSummary(progress)]
  {
    NoSummaries(CheckLines(progress, state));
    SummariesJoin(CheckLines(progress, state), [TheSummary(progress)]);
  }

  lemma NoneOfMilestones(started: bool, stageMoved: bool, firstCode: bool, firstScan: bool, state: View)
    requires firstCode ==> state.code.Some?
    ensures Summaries(Milestones(started, stageMoved, firstCode, firstScan, state)) == []
  {
    NoSummaries(Milestones(started, stageMoved, firstCode, firstScan, state));
  }

  lemma SummariesFor(before: Progress, lastStage: Option<Stage>, state: View)
    ensures Summaries(LinesFor(before, lastStage, state)) ==
      if !before.finished && state.finished then [TheSummary(Next(before, state))] else []
  {
    var firstCode, firstScan := !before.codeShown && state.code.Some?, !before.scanReported && state.stage == Some(CodeScanned);
    NoneOfMilestones(before.started, state.stage != lastStage, firstCode, firstScan, state);
    var verdict := if !before.finished && state.finished then VerdictLines(Next(before, state), state) else [];
    OneSummary(Next(before, state), state);
    SummariesMore(LinesFor(before, lastStage, state), Milestones(before.started, state.stage != lastStage, firstCode, firstScan, state),
                  verdict, [], Summaries(verdict));
  }

  lemma SummariesSaid(log: seq<Event>, m: nat)
    requires m < |log|
    ensures Summaries(Said(log, m)) == VerdictAfter(log, m)
  {
    if log[m].Published? {
      SaidIsLinesFor(log, m);
      SummariesFor(Folded(log, m), StageBefore(log, m), log[m].view);
    }
  }

  lemma TranscriptMore(log: seq<Event>, m: nat)
    requires m < |log|
    ensures Transcript(log, m + 1) == Transcript(log, m) + Said(log, m)
    ensures Verdicts(log, m + 1) == Verdicts(log, m) + VerdictAfter(log, m)
  {}

  ghost function Summarised(log: seq<Event>, n: nat): Verdict
    requires n <= |log|
  {
    if Summaries(Transcript(log, n)) == Verdicts(log, n) then Fine else Breach
  }

  lemma NextSummaries(log: seq<Event>, m: nat)
    requires m < |log| && Summarised(log, m).Fine?
    ensures Summarised(log, m + 1).Fine?
  {
    TranscriptMore(log, m);
    SummariesSaid(log, m);
    SummariesMore(Transcript(log, m + 1), Transcript(log, m), Said(log, m), Verdicts(log, m), VerdictAfter(log, m));
  }

  lemma {:induction false} SummariesSoFar(log: seq<Event>, n: nat)
    requires n <= |log|
    ensures Summarised(log, n).Fine?
  {
    if n > 0 {
      SummariesSoFar(log, n - 1);
      NextSummaries(log, n - 1);
    }
  }

  lemma SummariesOfTranscript(log: seq<Event>, n: nat)
    requires n <= |log|
    ensures Summaries(Transcript(log, n)) == Verdicts(log, n)
  {
    SummariesSoFar(log, n);
  }

  // ---- what the printed summary means ----

  lemma {:induction false} OneVerdict(log: seq<Event>, n: nat)
    requires n <= |log|
    ensures |Verdicts(log, n)| == if Folded(log, n).finished then 1 else 0
  {
    if n > 0 {
      OneVerdict(log, n - 1);
    }
  }

  /** After which of the first `n` events the verdict was printed. */
  lemma {:induction false} VerdictAt(log: seq<Event>, n: nat) returns (m: nat)
    requires n <= |log| && Folded(log, n).finished
    ensures 0 < m <= n && log[m - 1].Published? && log[m - 1].view.finished
    ensures Verdicts(log, n) == [TheSummary(Folded(log, m))]
  {
    OneVerdict(log, n - 1);
    if Folded(log, n - 1).finished {
      m := VerdictAt(log, n - 1);
    } else {
      m := n;
    }
  }

  /** The summary is printed once in a run that comes to a finished state, and
      then it counts every check of the whole run. */
  lemma SummaryIsFinal(log: seq<Event>, known: seq<Watch>)
    requires Obeys(log, known)
    ensures Folded(log, |log|).finished ==> Verdicts(log, |log|) == [TheSummary(Folded(log, |log|))]
    ensures !Folded(log, |log|).finished ==> Verdicts(log, |log|) == []
  {
    OneVerdict(log, |log|);
    if Folded(log, |log|).finished {
      var m := VerdictAt(log, |log|);
      LastOfAll(log, known, m);
    }
  }

  lemma LastOfAll(log: seq<Event>, known: seq<Watch>, m: nat)
    requires Obeys(log, known) && 0 < m <= |log| && log[m - 1].Published? && log[m - 1].view.finished
    ensures m == |log|
  {
    FinishedIsLast(log, known, m - 1);
  }

  /** A console that says five out of five stands on a confirmed scan. */
  lemma ConsoleSaysFive(log: seq<Event>, known: seq<Watch>, console: seq<Line>) returns (shown: nat, confirmed: nat)
    requires Obeys(log, known) && HeldFromTheStart(log) && ScannedAfterCode(log)
    requires Summaries(console) == Verdicts(log, |log|) && SummaryLine(5, 5) in console
    ensures shown < confirmed < |log|
    ensures log[shown].Published? && log[shown].view.code.Some?
    ensures ConfirmDone(log[confirmed]) && Count(log, |log|, ConfirmDone) == 1
    ensures var last := log[|log| - 1];
      last.Published? && last.view.finished && !last.view.failed && last.view.stage == Some(Done)
  {
    SummaryIsFinal(log, known);
    SummaryIn(console, SummaryLine(5, 5));
    assert TheSummary(Folded(log, |log|)) == SummaryLine(5, 5);
    shown, confirmed := FiveOfFive(log, known);
  }

  // ---- the harness's own run ----

  /** The confirm button is pressed in turn `n` of a script. */
  predicate Presses(script: seq<Turn>, n: nat)
  {
    n < |script| && Confirms in script[n].meanwhile
  }

  /** The harness presses ask and confirm as soon as it has the run's handle,
      while the first call is outstanding, and never again. */
  ghost predicate PressedOnStarting(script: seq<Turn>)
  {
    && (script != [] ==> Asks in script[0].meanwhile && Presses(script, 0))
    && forall t :: 0 < t < |script| ==> !Presses(script, t)
  }

  lemma {:induction false} TurnsGrow(log: seq<Event>, known: seq<Watch>, k: nat, n: nat)
    requires Obeys(log, known) && k <= n <= |log|
    ensures known[k].wire.turns <= known[n].wire.turns
  {
    if k < n {
      TurnsGrow(log, known, k, n - 1);
      Follows(log, known, n - 1);
    }
  }

  /** A state is shown only once some call has settled. */
  lemma {:induction false} SettledBySomeTurn(log: seq<Event>, known: seq<Watch>, n: nat)
    requires Obeys(log, known) && n <= |log|
    ensures known[n].run.created || known[n].wire.last != Nothing || known[n].wire.batch != [] ==> known[n].wire.turns > 0
  {
    if n > 0 {
      SettledBySomeTurn(log, known, n - 1);
      Follows(log, known, n - 1);
    }
  }

  lemma HearingStep(script: seq<Turn>, w: Watch, e: Event, h: nat)
    requires Step(script, w) == Some(e) && Observe(w, e).wire.turns == 0 && h < Observe(w, e).world.heard
    ensures w.wire.turns == 0 && h <= w.world.heard
    ensures h == w.world.heard ==> script != [] && h < |script[0].meanwhile| && e == Happened(script[0].meanwhile[h])
  {}

  /** What the run has heard in the first turn is in its log. */
  lemma {:induction false} HeardAt(script: seq<Turn>, log: seq<Event>, known: seq<Watch>, n: nat, h: nat) returns (p: nat)
    requires Traced(script, log, known) && n <= |log| && known[n].wire.turns == 0 && h < known[n].world.heard
    ensures p < n && script != [] && h < |script[0].meanwhile| && log[p] == Happened(script[0].meanwhile[h])
  {
    Proceeds(script, log, known, n - 1);
    HearingStep(script, known[n - 1], log[n - 1], h);
    if known[n - 1].world.heard == h {
      p := n - 1;
    } else {
      p := HeardAt(script, log, known, n - 1, h);
    }
  }

  /** A call settles when its turn has nothing more to tell. */
  lemma TurnEnds(script: seq<Turn>, w: Watch, e: Event)
    requires Step(script, w) == Some(e) && Observe(w, e).wire.turns != w.wire.turns
    ensures w.wire.turns < |script| && w.world.heard >= |script[w.wire.turns].meanwhile|
  {}

  /** By the time the first call has settled, all its turn says was heard. */
  lemma {:induction false} WasPressed(script: seq<Turn>, log: seq<Event>, known: seq<Watch>, n: nat) returns (p: nat)
    requires Traced(script, log, known) && n <= |log| && known[n].wire.turns > 0
    requires script != [] ==> Presses(script, 0)
    ensures p < n && ConfirmPress(log[p])
  {
    Proceeds(script, log, known, n - 1);
    if known[n - 1].wire.turns > 0 {
      p := WasPressed(script, log, known, n - 1);
    } else {
      TurnEnds(script, known[n - 1], log[n - 1]);
      var h :| 0 <= h < |script[0].meanwhile| && script[0].meanwhile[h] == Confirms;
      p := HeardAt(script, log, known, n - 1, h);
    }
  }

  lemma StateTakesATurn(log: seq<Event>, known: seq<Watch>, k: nat)
    requires Obeys(log, known) && k < |log| && log[k].Published?
    ensures known[k].wire.turns > 0
  {
    Follows(log, known, k);
    SettledBySomeTurn(log, known, k);
  }

  lemma HearsOnlyTheScript(script: seq<Turn>, w: Watch)
    requires Step(script, w) == Some(Happened(Confirms))
    ensures Presses(script, w.wire.turns)
  {}

  /** A press is the script's, in the turn it is heard in. */
  lemma PressTakesNone(script: seq<Turn>, log: seq<Event>, known: seq<Watch>, p: nat)
    requires Traced(script, log, known) && PressedOnStarting(script) && p < |log| && ConfirmPress(log[p])
    ensures known[p].wire.turns == 0
  {
    Proceeds(script, log, known, p);
    HearsOnlyTheScript(script, known[p]);
    assert Presses(script, known[p].wire.turns);
  }

  /** So its confirmation is held from the start. */
  lemma HeldByScript(script: seq<Turn>, log: seq<Event>, known: seq<Watch>)
    requires Obeys(log, known) && Traced(script, log, known) && PressedOnStarting(script)
    requires known[|log|].wire.turns > 0
    ensures HeldFromTheStart(log)
  {
    var _ := WasPressed(script, log, known, |log|);
    forall k, p | 0 <= k < p < |log| && ConfirmPress(log[p]) ensures !log[k].Published? {
      PressTakesNone(script, log, known, p);
      TurnsGrow(log, known, k, p);
      if log[k].Published? {
        StateTakesATurn(log, known, k);
      }
    }
  }

  lemma {:induction false} FinishedTakesATurn(log: seq<Event>, known: seq<Watch>, n: nat)
    requires Obeys(log, known) && n <= |log| && Folded(log, n).finished
    ensures known[n].wire.turns > 0
  {
    TurnsGrow(log, known, n - 1, n);
    if log[n - 1].Published? {
      StateTakesATurn(log, known, n - 1);
    } else {
      FinishedTakesATurn(log, known, n - 1);
    }
  }

  ghost predicate EndsInSuccess(log: seq<Event>)
  {
    && log != [] && log[|log| - 1].Published?
    && var last := log[|log| - 1].view; last.finished && !last.failed && last.stage == Some(Done)
  }

  /** One confirmation resolved, after a code was shown. */
  ghost predicate ConfirmedOnce(log: seq<Event>)
  {
    && Count(log, |log|, ConfirmDone) == 1
    && exists shown, confirmed :: 0 <= shown < confirmed < |log| && ShowsCode(log[shown]) && ConfirmDone(log[confirmed])
  }

  lemma FiveOfFiveByScript(script: seq<Turn>, log: seq<Event>, known: seq<Watch>, console: seq<Line>)
    requires Obeys(log, known) && Traced(script, log, known) && PressedOnStarting(script) && ScannedAfterCode(log)
    requires Summaries(console) == Verdicts(log, |log|) && SummaryLine(5, 5) in console
    ensures ConfirmedOnce(log) && EndsInSuccess(log)
  {
    SummaryIn(console, SummaryLine(5, 5));
    SummaryIsFinal(log, known);
    FinishedTakesATurn(log, known, |log|);
    HeldByScript(script, log, known);
    var shown, confirmed := ConsoleSaysFive(log, known, console);
    assert ShowsCode(log[shown]) && ConfirmDone(log[confirmed]);
  }

  /** The run the harness performs, and all its console says. Whatever the
      environment does, if its library says a code was scanned only once it has
      handed one over, a console that says five out of five stands on one
      confirmed scan of a code that was shown, and on a flow that is done. */
  method Perform(script: seq<Turn>) returns (console: seq<Line>, log: seq<Event>, settled: bool)
    requires PressedOnStarting(script)
    ensures exists known :: Runner.Lawful(script, log, settled, known)
    ensures console == Transcript(log, |log|) && Summaries(console) == Verdicts(log, |log|)
    ensures ScannedAfterCode(log) && SummaryLine(5, 5) in console ==> ConfirmedOnce(log) && EndsInSuccess(log)
  {
    log, settled := Runner.Start(script);
    console := Present(log);
    SummariesOfTranscript(log, |log|);
    ghost var known :| Runner.Lawful(script, log, settled, known);
    if ScannedAfterCode(log) && SummaryLine(5, 5) in console {
      FiveOfFiveByScript(script, log, known, console);
    }
  }
}
