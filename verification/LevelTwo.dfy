/** The verdict pipeline of the level 2 proof: the suite that runs its steps,
    the harness that reconciles and prints what they came to, and the host
    program that reads the printed lines and decides.
  */
module LevelTwo {

  // ---- the suite ----

  /** What the body of a step does when it is run. */
  datatype StepResult = Returned(ok: bool, detail: string) | Threw(description: string)

  predicate Succeeds(r: StepResult) { r.Returned? && r.ok }

  datatype Check = Check(name: string, ok: bool, detail: string)

  const NOT_REACHED := "not reached: an earlier step failed"

  /** What a step that ran reports. */
  function Reported(name: string, r: StepResult): Check
  {
    match r
    case Returned(ok, detail) => Check(name, ok, detail)
    case Threw(description) => Check(name, false, description)
  }

  /** Runs the steps in order until one fails. `world` is what each step's body
      would do; `ran` lists the steps whose bodies were run. */
  method RunSteps(steps: seq<string>, world: seq<StepResult>) returns (checks: seq<Check>, ran: seq<string>)
    requires |world| == |steps|
    ensures |checks| == |steps| && |ran| <= |steps| && ran == steps[..|ran|]
    ensures forall i :: 0 <= i < |ran| ==> checks[i] == Reported(steps[i], world[i])
    ensures forall i :: |ran| <= i < |steps| ==> checks[i] == Check(steps[i], false, NOT_REACHED)
    ensures forall i :: 0 <= i < |ran| - 1 ==> Succeeds(world[i])
    ensures |ran| < |steps| ==> |ran| > 0 && !Succeeds(world[|ran| - 1])
    ensures forall i :: 0 <= i < |checks| ==> checks[i].name == steps[i]
    ensures forall i :: 0 <= i < |ran| ==> (checks[i].ok <==> world[i].Returned? && world[i].ok)
    ensures forall i :: 0 <= i < |ran| ==> checks[i].detail == if world[i].Returned? then world[i].detail else world[i].description
    ensures forall i :: |ran| <= i < |steps| ==> !checks[i].ok && checks[i].detail == "not reached: an earlier step failed"
  {
    checks, ran := [], [];
    var stopped := false;
    for i := 0 to |steps|
      invariant |checks| == i && |ran| <= i && ran == steps[..|ran|]
      invariant forall k :: 0 <= k < |ran| ==> checks[k] == Reported(steps[k], world[k])
      invariant forall k :: |ran| <= k < i ==> checks[k] == Check(steps[k], false, NOT_REACHED)
      invariant if stopped then |ran| > 0 && !Succeeds(world[|ran| - 1]) && forall k :: 0 <= k < |ran| - 1 ==> Succeeds(world[k])
                else |ran| == i && forall k :: 0 <= k < i ==> Succeeds(world[k])
    {
      if stopped {
        checks := checks + [Check(steps[i], false, NOT_REACHED)];
        continue;
      }
      ran := ran + [steps[i]];
      match world[i] {
        case Returned(ok, detail) =>
          checks := checks + [Check(steps[i], ok, detail)];
          if !ok {
            stopped := true;
          }
        case Threw(description) =>
          checks := checks + [Check(steps[i], false, description)];
          stopped := true;
      }
    }
  }

  const TEARDOWN := "teardown"

  /** The steps the level 2 run promises, in order. */
  const LEVEL_TWO_STEPS := [
    "machine_created", "keys_published", "raw_sync_rejected", "counterparty_ready", "first_share_delivers_nothing",
    "counterparty_publishes_keys", "sync_teaches_the_machine", "claim_then_share_delivers_key",
    "library_encrypts_nio_decrypts", "nio_refuses_corrupted_ciphertext", "nio_encrypts_library_decrypts",
    "library_refuses_corrupted_ciphertext", TEARDOWN
  ]

  /** What the suite's steps come to: each was run, succeeded, and reported in
      order, up to the first that did not; the rest were not reached. Teardown
      runs last, whatever happened. */
  ghost predicate SuiteReports(world: seq<StepResult>, teardown: StepResult, checks: seq<Check>, ran: seq<string>)
  {
    && |world| == 12 && |checks| == 13 && 0 < |ran| <= 13
    && ran == LEVEL_TWO_STEPS[..|ran| - 1] + [TEARDOWN]
    && (forall i :: 0 <= i < |ran| - 1 ==> checks[i] == Reported(LEVEL_TWO_STEPS[i], world[i]))
    && (forall i :: |ran| - 1 <= i < 12 ==> checks[i] == Check(LEVEL_TWO_STEPS[i], false, NOT_REACHED))
    && (forall i :: 0 <= i < |ran| - 2 ==> Succeeds(world[i]))
    && (|ran| < 13 ==> |ran| > 1 && !Succeeds(world[|ran| - 2]))
    && checks[12] == Reported(TEARDOWN, teardown)
  }

  method RunSuite(world: seq<StepResult>, teardown: StepResult) returns (checks: seq<Check>, ran: seq<string>)
    requires |world| == 12
    ensures SuiteReports(world, teardown, checks, ran)
  {
    checks, ran := RunSteps(LEVEL_TWO_STEPS[..12], world);
    checks, ran := checks + [Reported(TEARDOWN, teardown)], ran + [TEARDOWN];
  }

  // ---- the harness ----

  const NOT_REPORTED := "not reported: the run ended before this step could report"

  /** What the suite hands the harness: its checks, or a throw it is not
      supposed to be able to make. */
  datatype Suite = Checks(checks: seq<Check>) | SuiteThrew(kind: string)

  predicate Names(results: seq<Check>, name: string)
  {
    exists i :: 0 <= i < |results| && results[i].name == name
  }

  function Given(suite: Suite): seq<Check>
  {
    match suite
    case Checks(checks) => checks
    case SuiteThrew(kind) => [Check("harness", false, "the harness itself failed with a " + kind)]
  }

  /** The results once every promised name that is not among them is added as a
      failure. */
  function Reconciled(given: seq<Check>, promised: seq<string>): seq<Check>
  {
    if promised == [] then given
    else
      var results, name := Reconciled(given, promised[..|promised| - 1]), promised[|promised| - 1];
      if Names(results, name) then results else results + [Check(name, false, NOT_REPORTED)]
  }

  /** The harness's loop. */
  method Reconcile(given: seq<Check>, promised: seq<string>) returns (results: seq<Check>)
    ensures results == Reconciled(given, promised)
  {
    results := given;
    for n := 0 to |promised|
      invariant results == Reconciled(given, promised[..n])
    {
      assert promised[..n + 1][..n] == promised[..n];
      var name := promised[n];
      if !Names(results, name) {
        results := results + [Check(name, false, NOT_REPORTED)];
      }
    }
    assert promised[..|promised|] == promised;
  }

  /** Reconciling keeps what was given, names all that was promised, and adds
      only failures, no more than one a name. */
  lemma {:induction false} ReconcileOnlyAddsFailures(given: seq<Check>, promised: seq<string>)
    ensures var results := Reconciled(given, promised);
      && given <= results && |results| <= |given| + |promised|
      && (forall i :: |given| <= i < |results| ==> !results[i].ok && results[i].detail == NOT_REPORTED)
      && (forall name :: name in promised ==> Names(results, name))
  {
    if promised != [] {
      var front, last := promised[..|promised| - 1], promised[|promised| - 1];
      ReconcileOnlyAddsFailures(given, front);
      var before, results := Reconciled(given, front), Reconciled(given, promised);
      assert before <= results;
      NamesStay(before, results);
      if !Names(before, last) {
        assert results[|before|].name == last;
      }
      assert forall name :: name in promised ==> name in front || name == last;
    }
  }

  lemma NamesStay(before: seq<Check>, results: seq<Check>)
    requires before <= results
    ensures forall name :: Names(before, name) ==> Names(results, name)
  {
    forall name | Names(before, name) ensures Names(results, name) {
      var i :| 0 <= i < |before| && before[i].name == name;
      assert results[i].name == name;
    }
  }

  ghost predicate Distinct(names: seq<string>)
  {
    forall i, j :: 0 <= i < j < |names| ==> names[i] != names[j]
  }

  /** A harness that threw reports one check too many: every promised name is
      missing from what it was given. */
  lemma {:induction false} ThrowCountsOneTooMany(given: Check, promised: seq<string>)
    requires Distinct(promised) && given.name !in promised
    ensures var results := Reconciled([given], promised);
      |results| == 1 + |promised| && results[0] == given && forall i :: 0 <= i < |promised| ==> results[i + 1].name == promised[i]
  {
    if promised != [] {
      var front, last := promised[..|promised| - 1], promised[|promised| - 1];
      ThrowCountsOneTooMany(given, front);
      var before := Reconciled([given], front);
      if Names(before, last) {
        var i :| 0 <= i < |before| && before[i].name == last;
        assert i == 0 || front[i - 1] == last;
      }
    }
  }

  predicate AllOk(results: seq<Check>) { forall i :: 0 <= i < |results| ==> results[i].ok }

  function CountOk(results: seq<Check>): (n: nat)
    ensures n <= |results|
  {
    if results == [] then 0 else CountOk(results[..|results| - 1]) + if results[|results| - 1].ok then 1 else 0
  }

  lemma {:induction false} CountsAll(results: seq<Check>)
    ensures CountOk(results) == |results| <==> AllOk(results)
  {
    if results != [] {
      CountsAll(results[..|results| - 1]);
    }
  }

  /** What is counted is the results that are ok. */
  lemma {:induction false} CountOkCounts(results: seq<Check>)
    ensures CountOk(results) == |set i | 0 <= i < |results| && results[i].ok|
  {
    var now := set i | 0 <= i < |results| && results[i].ok;
    if results == [] {
      assert now == {};
    } else {
      var n := |results| - 1;
      var before := set i | 0 <= i < n && results[..n][i].ok;
      CountOkCounts(results[..n]);
      assert now == before + if results[n].ok then {n} else {};
    }
  }

  // ---- decimal numbers, printed and read back ----

  predicate IsDigit(c: char) { '0' <= c <= '9' }

  function Digit(d: nat): char
    requires d < 10
  {
    ('0' as int + d) as char
  }

  function Decimal(n: nat): (s: string)
    ensures s != [] && forall i :: 0 <= i < |s| ==> IsDigit(s[i])
  {
    if n < 10 then [Digit(n)] else Decimal(n / 10) + [Digit(n % 10)]
  }

  /** `int(text)` on digits. */
  function ParseDecimal(s: string): nat
    requires forall i :: 0 <= i < |s| ==> IsDigit(s[i])
  {
    if s == [] then 0
    else assert IsDigit(s[|s| - 1]); ParseDecimal(s[..|s| - 1]) * 10 + (s[|s| - 1] as int - '0' as int)
  }

  lemma {:induction false} ParseBack(n: nat)
    ensures ParseDecimal(Decimal(n)) == n
  {
    if n >= 10 {
      ParseBack(n / 10);
      assert Decimal(n)[..|Decimal(n)| - 1] == Decimal(n / 10);
    }
  }

  // ---- the printed lines ----

  const CHECK_PREFIX := "LEVEL2_CHECK "
  const SUMMARY_PREFIX := "LEVEL2_SUMMARY"
  const MUTATED_SUMMARY_PREFIX := "LEVEL2_MUTATED_SUMMARY"

  function CheckLine(c: Check): string
  {
    CHECK_PREFIX + c.name + " " + (if c.ok then "PASS" else "FAIL") + " " + c.detail
  }

  function SummaryLine(mutation: string, passed: nat, total: nat): string
  {
    if mutation == "none" then SUMMARY_PREFIX + " " + Decimal(passed) + "/" + Decimal(total)
    else MUTATED_SUMMARY_PREFIX + " " + Decimal(passed) + "/" + Decimal(total) + " mutation=" + mutation
  }

  function CheckLines(results: seq<Check>): (lines: seq<string>)
    ensures |lines| == |results|
    ensures forall i :: 0 <= i < |lines| ==> lines[i] == CheckLine(results[i])
  {
    seq(|results|, i requires 0 <= i < |results| => CheckLine(results[i]))
  }

  method CountPassed(results: seq<Check>) returns (passed: nat)
    ensures passed == CountOk(results)
  {
    passed := 0;
    for i := 0 to |results|
      invariant passed == CountOk(results[..i])
    {
      assert results[..i + 1][..i] == results[..i];
      if results[i].ok {
        passed := passed + 1;
      }
    }
    assert results[..|results|] == results;
  }

  /** The harness's log calls. */
  method PrintResults(results: seq<Check>, mutation: string) returns (lines: seq<string>)
    ensures lines == CheckLines(results) + [SummaryLine(mutation, CountOk(results), |results|)]
  {
    lines := [];
    for i := 0 to |results|
      invariant lines == CheckLines(results)[..i]
    {
      lines := lines + [CheckLine(results[i])];
    }
    var passed := CountPassed(results);
    lines := lines + [SummaryLine(mutation, passed, |results|)];
  }

  /** The harness: reconciles, prints a line a check, and counts. */
  method RunHarness(suite: Suite, mutation: string, promised: seq<string>) returns (results: seq<Check>, lines: seq<string>)
    ensures results == Reconciled(Given(suite), promised)
    ensures suite.Checks? ==> suite.checks <= results
    ensures suite.SuiteThrew? ==> [Check("harness", false, "the harness itself failed with a " + suite.kind)] <= results
    ensures lines == CheckLines(results) + [SummaryLine(mutation, CountOk(results), |results|)]
    ensures forall i :: 0 <= i < |results| ==>
      lines[i] == "LEVEL2_CHECK " + results[i].name + " " + (if results[i].ok then "PASS" else "FAIL") + " " + results[i].detail
    ensures var passed, total := Decimal(CountOk(results)), Decimal(|results|);
      lines[|results|] == if mutation == "none" then "LEVEL2_SUMMARY" + " " + passed + "/" + total
                          else "LEVEL2_MUTATED_SUMMARY" + " " + passed + "/" + total + " mutation=" + mutation
  {
    results := Reconcile(Given(suite), promised);
    lines := PrintResults(results, mutation);
    ReconcileOnlyAddsFailures(Given(suite), promised);
  }
}
