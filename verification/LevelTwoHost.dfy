/** The host program's acceptance rule, and what an acceptance means for the
    steps of the run it accepts.
  */
module LevelTwoHost {
  import opened LevelTwo
  import opened Sequences

  // ---- reading lines ----

  function Until(s: string, c: char): (t: string)
    ensures t <= s && c !in t
  {
    if s == [] || s[0] == c then [] else [s[0]] + Until(s[1..], c)
  }

  function After(s: string, c: char): string
  {
    if s == [] then [] else if s[0] == c then s[1..] else After(s[1..], c)
  }

  predicate AllDigits(s: string)
  {
    s != [] && forall i :: 0 <= i < |s| ==> IsDigit(s[i])
  }

  /** What the summary pattern asks for after its prefix: digits, a slash and a
      digit. */
  predicate OpensWithCount(s: string)
  {
    AllDigits(Until(s, '/')) && After(s, '/') != [] && IsDigit(After(s, '/')[0])
  }

  predicate OpensWith(prefix: string, line: string)
  {
    prefix + " " <= line && OpensWithCount(line[|prefix| + 1..])
  }

  predicate IsSummary(line: string)
  {
    OpensWith(SUMMARY_PREFIX, line) || OpensWith(MUTATED_SUMMARY_PREFIX, line)
  }

  predicate IsVerdict(line: string) { CHECK_PREFIX <= line }

  predicate IsRunLine(line: string) { "LEVEL2_" <= line }

  function Select(lines: seq<string>, kind: string -> bool): (found: seq<string>)
    ensures forall line :: line in found <==> line in lines && kind(line)
  {
    if lines == [] then []
    else Select(lines[..|lines| - 1], kind) + if kind(lines[|lines| - 1]) then [lines[|lines| - 1]] else []
  }

  /** `summary.split()[1].split("/")`, as two numbers. */
  function Fraction(summary: string): string { Until(After(summary, ' '), ' ') }

  // ---- the rule ----

  const EXPECTED_STEPS := 13

  function PrefixFor(mutation: string): string
  {
    if mutation == "none" then SUMMARY_PREFIX else MUTATED_SUMMARY_PREFIX
  }

  /** What the rule reads off a summary line: nothing unless it has the prefix
      it should and a count behind it. */
  datatype Reading = Unread | Count(passed: nat, total: nat)

  function ReadOff(summary: string, prefix: string): Reading
  {
    var passed, total := Until(Fraction(summary), '/'), After(Fraction(summary), '/');
    if prefix <= summary && AllDigits(passed) && AllDigits(total) then Count(ParseDecimal(passed), ParseDecimal(total))
    else Unread
  }

  /** The lines that say a step failed. */
  function IsRed(target: string): string -> bool
  {
    line => CHECK_PREFIX + target + " FAIL" <= line
  }

  datatype Decision = Accepted | RunFailed

  /** The host's requirements, in order. */
  function Decide(lines: seq<string>, mutation: string, target: string): Decision
  {
    var summaries := Select(lines, IsSummary);
    if |summaries| != 1 then RunFailed
    else
      match ReadOff(summaries[0], PrefixFor(mutation))
      case Unread => RunFailed
      case Count(passed, total) =>
        if total != EXPECTED_STEPS || |Select(lines, IsVerdict)| != EXPECTED_STEPS then RunFailed
        else if mutation == "none" then if passed == total then Accepted else RunFailed
        else if |Select(lines, IsRed(target))| > 0 && passed < total then Accepted else RunFailed
  }

  // ---- what the harness prints is what the rule reads ----

  /** The lines of a device's log of which the harness printed `printed`. */
  ghost predicate Carries(lines: seq<string>, printed: seq<string>)
  {
    Select(lines, IsRunLine) == printed
  }

  lemma {:induction false} SelectTwice(lines: seq<string>, kind: string -> bool)
    requires forall line :: kind(line) ==> IsRunLine(line)
    ensures Select(lines, kind) == Select(Select(lines, IsRunLine), kind)
  {
    if lines != [] {
      var front, last := lines[..|lines| - 1], lines[|lines| - 1];
      SelectTwice(front, kind);
      var inner := Select(front, IsRunLine);
      if IsRunLine(last) {
        assert (inner + [last])[..|inner|] == inner;
      } else {
        assert Select(lines, IsRunLine) == inner;
      }
    }
  }

  lemma {:induction false} SelectNone(lines: seq<string>, kind: string -> bool)
    requires forall line :: line in lines ==> !kind(line)
    ensures Select(lines, kind) == []
  {
    if lines != [] {
      SelectNone(lines[..|lines| - 1], kind);
    }
  }

  lemma {:induction false} SelectAll(lines: seq<string>, kind: string -> bool)
    requires forall line :: line in lines ==> kind(line)
    ensures Select(lines, kind) == lines
  {
    if lines != [] {
      SelectAll(lines[..|lines| - 1], kind);
      Relast(lines);
    }
  }

  lemma SelectLast(lines: seq<string>, last: string, kind: string -> bool)
    ensures Select(lines + [last], kind) == Select(lines, kind) + if kind(last) then [last] else []
  {
    assert (lines + [last])[..|lines|] == lines;
  }

  lemma {:induction false} UntilAfter(t: string, c: char, rest: string)
    requires c !in t
    ensures Until(t + [c] + rest, c) == t && After(t + [c] + rest, c) == rest
    ensures Until(t, c) == t
  {
    var s := t + [c] + rest;
    if t != [] {
      assert s[1..] == t[1..] + [c] + rest;
      UntilAfter(t[1..], c, rest);
    }
  }

  /** A check's line is no summary, and a summary's line no verdict. */
  lemma LinesApart(line: string)
    ensures IsVerdict(line) ==> IsRunLine(line) && !IsSummary(line)
    ensures IsSummary(line) ==> IsRunLine(line)
  {
    assert CHECK_PREFIX[7] == 'C' && SUMMARY_PREFIX[7] == 'S' && MUTATED_SUMMARY_PREFIX[7] == 'M';
  }

  lemma NotInDigits(s: string, c: char)
    requires AllDigits(s) && !IsDigit(c)
    ensures c !in s
  {}

  /** A word is what is before the next space, or all there is. */
  lemma {:induction false} FirstWord(word: string, rest: string)
    requires ' ' !in word && (rest == "" || rest[0] == ' ')
    ensures Until(word + rest, ' ') == word
  {
    if word != [] {
      assert word[0] in word;
      assert (word + rest)[1..] == word[1..] + rest;
      FirstWord(word[1..], rest);
    }
  }

  lemma CountIsAWord(passed: string, total: string)
    requires AllDigits(passed) && AllDigits(total)
    ensures ' ' !in passed + "/" + total
  {
    NotInDigits(passed, ' ');
    NotInDigits(total, ' ');
  }

  lemma Regroup(a: string, b: string, c: string, d: string, e: string, f: string)
    ensures a + b + c + d + e + f == (a + b) + (c + d + e + f) == a + (b + (c + d + e + f))
  {}

  /** The digits on a summary line are the digits the rule reads. */
  lemma CountReadsBack(prefix: string, passed: string, total: string, rest: string)
    requires ' ' !in prefix && (rest == "" || rest[0] == ' ') && AllDigits(passed) && AllDigits(total)
    ensures var line := prefix + " " + passed + "/" + total + rest;
      && OpensWithCount(line[|prefix| + 1..])
      && Until(Fraction(line), '/') == passed && After(Fraction(line), '/') == total
  {
    Regroup(prefix, " ", passed, "/", total, rest);
    Longer(prefix + " ", passed + "/" + total + rest);
    UntilAfter(prefix, ' ', passed + "/" + total + rest);
    CountIsAWord(passed, total);
    FirstWord(passed + "/" + total, rest);
    NotInDigits(passed, '/');
    UntilAfter(passed, '/', total);
    Associate(passed + "/", total, rest);
    UntilAfter(passed, '/', total + rest);
    assert (total + rest)[0] == total[0];
  }

  lemma Longer(prefix: string, rest: string)
    ensures prefix <= prefix + rest && (prefix + rest)[|prefix|..] == rest
  {}

  lemma LineReadsBack(prefix: string, passed: string, total: string, rest: string)
    requires ' ' !in prefix && (rest == "" || rest[0] == ' ') && AllDigits(passed) && AllDigits(total)
    ensures var line := prefix + " " + passed + "/" + total + rest;
      OpensWith(prefix, line) && ReadOff(line, prefix) == Count(ParseDecimal(passed), ParseDecimal(total))
  {
    var count := passed + "/" + total + rest;
    Regroup(prefix, " ", passed, "/", total, rest);
    CountReadsBack(prefix, passed, total, rest);
    Longer(prefix + " ", count);
    Longer(prefix, " " + count);
  }

  lemma SummaryReadsBack(mutation: string, passed: nat, total: nat)
    ensures var line := SummaryLine(mutation, passed, total);
      IsSummary(line) && !IsVerdict(line) && ReadOff(line, PrefixFor(mutation)) == Count(passed, total)
  {
    var rest := if mutation == "none" then "" else " mutation=" + mutation;
    var line := PrefixFor(mutation) + " " + Decimal(passed) + "/" + Decimal(total);
    LineReadsBack(PrefixFor(mutation), Decimal(passed), Decimal(total), rest);
    ParseBack(passed);
    ParseBack(total);
    assert line + "" == line;
    assert line + " mutation=" + mutation == line + (" mutation=" + mutation);
    LinesApart(SummaryLine(mutation, passed, total));
  }

  lemma EachIsARunLine()
    ensures forall line :: IsSummary(line) || IsVerdict(line) ==> IsRunLine(line)
  {
    forall line | IsSummary(line) || IsVerdict(line) ensures IsRunLine(line) { LinesApart(line); }
  }

  lemma VerdictsOnly(results: seq<Check>)
    ensures forall line :: line in CheckLines(results) ==> IsVerdict(line) && !IsSummary(line)
  {
    forall i | 0 <= i < |results| ensures IsVerdict(CheckLine(results[i])) && !IsSummary(CheckLine(results[i])) {
      LinesApart(CheckLine(results[i]));
    }
  }

  /** What the rule finds among the harness's lines: its one summary, and a
      verdict for each result. */
  lemma RuleSees(lines: seq<string>, results: seq<Check>, summary: string)
    requires Carries(lines, CheckLines(results) + [summary]) && IsSummary(summary) && !IsVerdict(summary)
    ensures Select(lines, IsSummary) == [summary] && Select(lines, IsVerdict) == CheckLines(results)
  {
    var verdicts := CheckLines(results);
    EachIsARunLine();
    VerdictsOnly(results);
    SelectTwice(lines, IsSummary);
    SelectTwice(lines, IsVerdict);
    SelectLast(verdicts, summary, IsSummary);
    SelectLast(verdicts, summary, IsVerdict);
    SelectNone(verdicts, IsSummary);
    SelectAll(verdicts, IsVerdict);
  }

  lemma RuleOnSummary(lines: seq<string>, summary: string, mutation: string, target: string, passed: nat, total: nat)
    requires Select(lines, IsSummary) == [summary] && ReadOff(summary, PrefixFor(mutation)) == Count(passed, total)
    ensures Decide(lines, mutation, target).Accepted? <==>
      && total == EXPECTED_STEPS && |Select(lines, IsVerdict)| == EXPECTED_STEPS
      && if mutation == "none" then passed == total
         else |Select(lines, IsRed(target))| > 0 && passed < total
  {}

  /** What the rule asks of the harness's results. */
  lemma RuleMeans(lines: seq<string>, results: seq<Check>, mutation: string, target: string)
    requires Carries(lines, CheckLines(results) + [SummaryLine(mutation, CountOk(results), |results|)])
    ensures Decide(lines, mutation, target).Accepted? <==>
      && |results| == EXPECTED_STEPS
      && if mutation == "none" then AllOk(results)
         else |Select(CheckLines(results), IsRed(target))| > 0 && !AllOk(results)
  {
    var summary := SummaryLine(mutation, CountOk(results), |results|);
    SummaryReadsBack(mutation, CountOk(results), |results|);
    RuleSees(lines, results, summary);
    RedLines(lines, results, summary, target);
    RuleOnSummary(lines, summary, mutation, target, CountOk(results), |results|);
    CountsAll(results);
  }

  lemma RedLines(lines: seq<string>, results: seq<Check>, summary: string, target: string)
    requires Carries(lines, CheckLines(results) + [summary]) && !IsVerdict(summary)
    ensures Select(lines, IsRed(target)) == Select(CheckLines(results), IsRed(target))
  {
    var red := IsRed(target);
    forall line | red(line) ensures IsVerdict(line) && IsRunLine(line) {
      assert CHECK_PREFIX <= CHECK_PREFIX + target + " FAIL" <= line;
      LinesApart(line);
    }
    SelectTwice(lines, red);
    SelectLast(CheckLines(results), summary, red);
  }

  lemma SelectSome(lines: seq<string>, kind: string -> bool)
    ensures |Select(lines, kind)| > 0 <==> exists i :: 0 <= i < |lines| && kind(lines[i])
  {
    if |Select(lines, kind)| > 0 {
      assert Select(lines, kind)[0] in lines;
    }
    if i :| 0 <= i < |lines| && kind(lines[i]) {
      assert lines[i] in Select(lines, kind);
    }
  }

  // ---- what an acceptance takes of any log ----

  /** How many lines are of a kind. */
  function Places(lines: seq<string>, kind: string -> bool): set<nat>
  {
    set i: nat | i < |lines| && kind(lines[i])
  }

  lemma PlacesMore(lines: seq<string>, kind: string -> bool)
    requires lines != []
    ensures var n := |lines| - 1;
      && n !in Places(lines[..n], kind)
      && Places(lines, kind) == Places(lines[..n], kind) + if kind(lines[n]) then {n} else {}
  {}

  lemma {:induction false} SelectCounts(lines: seq<string>, kind: string -> bool)
    ensures |Select(lines, kind)| == |Places(lines, kind)|
  {
    if lines != [] {
      SelectCounts(lines[..|lines| - 1], kind);
      PlacesMore(lines, kind);
    }
  }

  /** Line `s` is a summary and no other line is. */
  ghost predicate OnlySummary(lines: seq<string>, s: nat)
  {
    s < |lines| && IsSummary(lines[s]) && forall i :: 0 <= i < |lines| && i != s ==> !IsSummary(lines[i])
  }

  lemma {:induction false} OneSelected(lines: seq<string>, kind: string -> bool) returns (s: nat)
    requires |Select(lines, kind)| == 1
    ensures s < |lines| && kind(lines[s]) && Select(lines, kind)[0] == lines[s]
    ensures forall i :: 0 <= i < |lines| && i != s ==> !kind(lines[i])
  {
    var n := |lines| - 1;
    if kind(lines[n]) {
      s := n;
      assert Select(lines[..n], kind) == [];
      forall i | 0 <= i < n ensures !kind(lines[i]) {
        assert lines[..n][i] in lines[..n];
      }
    } else {
      s := OneSelected(lines[..n], kind);
      assert forall i :: 0 <= i < n ==> lines[..n][i] == lines[i];
    }
  }

  lemma {:induction false} SelectsOne(lines: seq<string>, kind: string -> bool, s: nat)
    requires s < |lines| && kind(lines[s]) && forall i :: 0 <= i < |lines| && i != s ==> !kind(lines[i])
    ensures Select(lines, kind) == [lines[s]]
  {
    var n := |lines| - 1;
    if s == n {
      SelectNone(lines[..n], kind);
    } else {
      SelectsOne(lines[..n], kind, s);
    }
  }

  lemma {:induction false} CutAt(s: string, c: char)
    ensures s == Until(s, c) + if c in s then [c] + After(s, c) else ""
    ensures c !in s ==> After(s, c) == ""
  {
    if s != [] && s[0] != c {
      CutAt(s[1..], c);
    }
  }

  lemma {:induction false} UntilPrefix(prefix: string, c: char, s: string)
    requires c !in prefix && prefix + [c] <= s
    ensures Until(s, c) == prefix && After(s, c) == s[|prefix| + 1..] && s == prefix + [c] + After(s, c)
  {
    assert s == prefix + [c] + s[|prefix| + 1..];
    UntilAfter(prefix, c, s[|prefix| + 1..]);
  }

  /** What a summary says, digit by digit. */
  ghost predicate Says(line: string, prefix: string, passed: string, total: string, rest: string)
  {
    && AllDigits(passed) && AllDigits(total) && (rest == "" || rest[0] == ' ')
    && line == prefix + " " + passed + "/" + total + rest
  }

  lemma ReadOffSays(line: string, prefix: string) returns (passed: string, total: string, rest: string)
    requires prefix == SUMMARY_PREFIX || prefix == MUTATED_SUMMARY_PREFIX
    requires IsSummary(line) && ReadOff(line, prefix).Count?
    ensures Says(line, prefix, passed, total, rest)
    ensures ReadOff(line, prefix) == Count(ParseDecimal(passed), ParseDecimal(total))
  {
    PrefixesDiffer(line, prefix);
    passed, total, rest := ReadOffParts(line, prefix);
  }

  /** The second word of a line, and its two numbers. */
  lemma Parts(after: string) returns (passed: string, total: string, rest: string)
    requires After(Until(after, ' '), '/') != ""
    ensures var fraction := Until(after, ' ');
      && passed == Until(fraction, '/') && total == After(fraction, '/') && fraction == passed + "/" + total
      && after == fraction + rest && (rest == "" || rest[0] == ' ')
  {
    rest := RestAt(after, ' ');
    var fraction := Until(after, ' ');
    passed, total := Until(fraction, '/'), After(fraction, '/');
    FoundAt(fraction, '/');
  }

  lemma RestAt(s: string, c: char) returns (rest: string)
    ensures s == Until(s, c) + rest && (rest == "" || rest[0] == c)
  {
    CutAt(s, c);
    rest := if c in s then [c] + After(s, c) else "";
  }

  lemma FoundAt(s: string, c: char)
    requires After(s, c) != ""
    ensures s == Until(s, c) + [c] + After(s, c)
  {
    CutAt(s, c);
    Associate(Until(s, c), [c], After(s, c));
  }

  lemma ReadOffParts(line: string, prefix: string) returns (passed: string, total: string, rest: string)
    requires prefix + " " <= line && ' ' !in prefix && ReadOff(line, prefix).Count?
    ensures Says(line, prefix, passed, total, rest)
    ensures ReadOff(line, prefix) == Count(ParseDecimal(passed), ParseDecimal(total))
  {
    UntilPrefix(prefix, ' ', line);
    passed, total, rest := Parts(After(line, ' '));
    JoinSummary(line, prefix, After(line, ' '), Fraction(line), passed, total, rest);
  }

  lemma JoinSummary(line: string, prefix: string, after: string, fraction: string, passed: string, total: string, rest: string)
    requires line == prefix + " " + after && after == fraction + rest && fraction == passed + "/" + total
    ensures line == prefix + " " + passed + "/" + total + rest
  {
    Regroup(prefix, " ", passed, "/", total, rest);
    Associate(prefix, " ", after);
  }

  lemma PrefixesDiffer(line: string, prefix: string)
    requires prefix == SUMMARY_PREFIX || prefix == MUTATED_SUMMARY_PREFIX
    requires IsSummary(line) && prefix <= line
    ensures prefix + " " <= line && ' ' !in prefix
  {
    assert SUMMARY_PREFIX[7] == 'S' && MUTATED_SUMMARY_PREFIX[7] == 'M';
  }

  /** An acceptance takes exactly one summary line, with the prefix that is due
      and digits on both sides of its slash, thirteen of thirteen verdicts, and
      all of them passed, or in a mutated run one that is red for the target. */
  lemma AcceptanceTakes(lines: seq<string>, mutation: string, target: string)
    returns (s: nat, passed: string, total: string, rest: string)
    requires Decide(lines, mutation, target).Accepted?
    ensures OnlySummary(lines, s)
    ensures Says(lines[s], if mutation == "none" then "LEVEL2_SUMMARY" else "LEVEL2_MUTATED_SUMMARY", passed, total, rest)
    ensures ParseDecimal(total) == 13 == |Places(lines, IsVerdict)|
    ensures if mutation == "none" then ParseDecimal(passed) == 13
            else ParseDecimal(passed) < 13 && exists i :: 0 <= i < |lines| && "LEVEL2_CHECK " + target + " FAIL" <= lines[i]
  {
    s := OneSelected(lines, IsSummary);
    passed, total, rest := ReadOffSays(lines[s], PrefixFor(mutation));
    SelectCounts(lines, IsVerdict);
    if mutation != "none" {
      SelectSome(lines, IsRed(target));
      var i :| 0 <= i < |lines| && IsRed(target)(lines[i]);
      assert "LEVEL2_CHECK " + target + " FAIL" <= lines[i];
    }
  }

  lemma NoSpace(mutation: string)
    ensures ' ' !in PrefixFor(mutation)
  {}

  /** And that is all it takes. */
  lemma AcceptanceIsDue(lines: seq<string>, mutation: string, target: string, s: nat, passed: string, total: string, rest: string)
    requires OnlySummary(lines, s)
    requires Says(lines[s], if mutation == "none" then "LEVEL2_SUMMARY" else "LEVEL2_MUTATED_SUMMARY", passed, total, rest)
    requires ParseDecimal(total) == 13 == |Places(lines, IsVerdict)|
    requires if mutation == "none" then ParseDecimal(passed) == 13
             else ParseDecimal(passed) < 13 && exists i :: 0 <= i < |lines| && "LEVEL2_CHECK " + target + " FAIL" <= lines[i]
    ensures Decide(lines, mutation, target).Accepted?
  {
    SelectsOne(lines, IsSummary, s);
    NoSpace(mutation);
    LineReadsBack(PrefixFor(mutation), passed, total, rest);
    SelectCounts(lines, IsVerdict);
    RuleOnSummary(lines, lines[s], mutation, target, ParseDecimal(passed), ParseDecimal(total));
    if mutation != "none" {
      var i :| 0 <= i < |lines| && "LEVEL2_CHECK " + target + " FAIL" <= lines[i];
      assert IsRed(target)(lines[i]);
      SelectSome(lines, IsRed(target));
    }
  }

  // ---- what an acceptance means for the steps ----

  /** The run as the host sees it: the suite's checks, reconciled and printed. */
  ghost predicate Printed(lines: seq<string>, suite: Suite, mutation: string)
  {
    var results := Reconciled(Given(suite), LEVEL_TWO_STEPS);
    Carries(lines, CheckLines(results) + [SummaryLine(mutation, CountOk(results), |results|)])
  }

  lemma {:induction false} NothingMissing(given: seq<Check>, promised: seq<string>)
    requires forall i :: 0 <= i < |promised| ==> Names(given, promised[i])
    ensures Reconciled(given, promised) == given
  {
    if promised != [] {
      NothingMissing(given, promised[..|promised| - 1]);
    }
  }

  /** A suite that reports gives the harness nothing to add. */
  lemma SuiteIsComplete(world: seq<StepResult>, teardown: StepResult, checks: seq<Check>, ran: seq<string>)
    requires SuiteReports(world, teardown, checks, ran)
    ensures Reconciled(checks, LEVEL_TWO_STEPS) == checks
  {
    forall i | 0 <= i < |LEVEL_TWO_STEPS| ensures Names(checks, LEVEL_TWO_STEPS[i]) {
      assert checks[i].name == LEVEL_TWO_STEPS[i];
    }
    NothingMissing(checks, LEVEL_TWO_STEPS);
  }

  /** A clean acceptance means that every promised step ran, in order, with
      teardown last, and that each of them succeeded; and every such run is
      accepted. A suite that throws is never accepted. */
  lemma CleanAcceptance(lines: seq<string>, suite: Suite, world: seq<StepResult>, teardown: StepResult, ran: seq<string>)
    requires Printed(lines, suite, "none")
    requires suite.Checks? ==> SuiteReports(world, teardown, suite.checks, ran)
    ensures Decide(lines, "none", "").Accepted? <==>
      suite.Checks? && (forall i :: 0 <= i < 12 ==> Succeeds(world[i])) && Succeeds(teardown)
    ensures Decide(lines, "none", "").Accepted? ==> ran == LEVEL_TWO_STEPS && forall i :: 0 <= i < 13 ==> suite.checks[i].name == LEVEL_TWO_STEPS[i] && suite.checks[i].ok
  {
    var results := Reconciled(Given(suite), LEVEL_TWO_STEPS);
    RuleMeans(lines, results, "none", "");
    match suite {
      case Checks(checks) =>
        SuiteIsComplete(world, teardown, checks, ran);
        AllStepsOk(world, teardown, checks, ran);
      case SuiteThrew(_) =>
        ReconcileOnlyAddsFailures(Given(suite), LEVEL_TWO_STEPS);
        assert !results[0].ok;
    }
  }

  lemma AllStepsOk(world: seq<StepResult>, teardown: StepResult, checks: seq<Check>, ran: seq<string>)
    requires SuiteReports(world, teardown, checks, ran)
    ensures AllOk(checks) <==> (forall i :: 0 <= i < 12 ==> Succeeds(world[i])) && Succeeds(teardown)
    ensures AllOk(checks) ==> ran == LEVEL_TWO_STEPS
  {
    if AllOk(checks) {
      assert |ran| < 13 ==> checks[|ran| - 2].ok;
      assert forall i :: 0 <= i < 12 ==> checks[i].ok;
      assert checks[12].ok;
      assert LEVEL_TWO_STEPS == LEVEL_TWO_STEPS[..12] + [TEARDOWN];
    }
  }

  // ---- what accepting a mutated run means ----

  predicate Plain(name: string) { ' ' !in name }

  lemma {:induction false} SamePrefix(a: string, b: string, x: string, y: string)
    requires Plain(a) && Plain(b) && a + " " + x <= b + " " + y
    ensures a == b && x <= y
  {
    var s, t := a + " " + x, b + " " + y;
    if a == [] {
      assert s[0] == t[0] == ' ';
      assert b == [];
      assert s[1..] == x && t[1..] == y;
    } else {
      assert a[0] in a && s[0] == t[0] == a[0];
      assert b != [] && b[0] == a[0];
      assert s[1..] == a[1..] + " " + x && t[1..] == b[1..] + " " + y;
      SamePrefix(a[1..], b[1..], x, y);
    }
  }

  /** A line is red for a step exactly if it is that step's, and it failed. */
  lemma RedMeansFailed(c: Check, target: string)
    requires Plain(c.name) && Plain(target)
    ensures IsRed(target)(CheckLine(c)) <==> c.name == target && !c.ok
  {
    var verdict := (if c.ok then "PASS" else "FAIL") + " " + c.detail;
    var line, red := CheckLine(c), CHECK_PREFIX + target + " FAIL";
    assert line == CHECK_PREFIX + (c.name + " " + verdict);
    assert red == CHECK_PREFIX + (target + " " + "FAIL");
    Longer(CHECK_PREFIX, c.name + " " + verdict);
    Longer(CHECK_PREFIX, target + " " + "FAIL");
    if red <= line {
      assert target + " " + "FAIL" == red[|CHECK_PREFIX|..] <= line[|CHECK_PREFIX|..];
      SamePrefix(target, c.name, "FAIL", verdict);
      assert verdict[0] == 'F';
    }
    if c.name == target && !c.ok {
      assert line == red + (" " + c.detail);
    }
  }

  function Shape(s: string): (nat, char)
    requires s != []
  {
    (|s|, s[0])
  }

  /** No two promised names have both their length and first letter in common. */
  const SHAPES := [(15, 'm'), (14, 'k'), (17, 'r'), (18, 'c'), (28, 'f'), (27, 'c'), (24, 's'), (29, 'c'), (29, 'l'), (32, 'n'), (29, 'n'), (36, 'l'), (8, 't')]

  lemma StepShapes()
    ensures forall i :: 0 <= i < 13 ==> LEVEL_TWO_STEPS[i] != [] && Shape(LEVEL_TWO_STEPS[i]) == SHAPES[i]
  {
  }

  lemma StepsAreDistinct()
    ensures Distinct(LEVEL_TWO_STEPS)
  {
    StepShapes();
    assert forall i, j :: 0 <= i < j < 13 ==> SHAPES[i] != SHAPES[j];
  }

  lemma PlainSteps0()
    ensures Plain(LEVEL_TWO_STEPS[0])
    ensures Plain(LEVEL_TWO_STEPS[1])
    ensures Plain(LEVEL_TWO_STEPS[2])
  {}

  lemma PlainSteps3()
    ensures Plain(LEVEL_TWO_STEPS[3])
    ensures Plain(LEVEL_TWO_STEPS[4])
    ensures Plain(LEVEL_TWO_STEPS[5])
  {}

  lemma PlainSteps6()
    ensures Plain(LEVEL_TWO_STEPS[6])
    ensures Plain(LEVEL_TWO_STEPS[7])
  {}

  lemma PlainSteps8()
    ensures Plain(LEVEL_TWO_STEPS[8])
    ensures Plain(LEVEL_TWO_STEPS[9])
  {}

  lemma PlainSteps10()
    ensures Plain(LEVEL_TWO_STEPS[10])
    ensures Plain(LEVEL_TWO_STEPS[11])
  {}

  lemma StepsArePlain()
    ensures forall i :: 0 <= i < 13 ==> Plain(LEVEL_TWO_STEPS[i])
  {
    PlainSteps0();
    PlainSteps3();
    PlainSteps6();
    PlainSteps8();
    PlainSteps10();
    assert Plain(TEARDOWN);
  }

  /** The lines of a suite's checks are red for a step exactly if it failed or
      was not reached. */
  lemma RedMeansNotOk(checks: seq<Check>, names: seq<string>, t: nat)
    requires |checks| == |names| && t < |names| && Distinct(names) && forall i :: 0 <= i < |names| ==> Plain(names[i])
    requires forall i :: 0 <= i < |names| ==> checks[i].name == names[i]
    ensures |Select(CheckLines(checks), IsRed(names[t]))| > 0 <==> !checks[t].ok
  {
    var red := IsRed(names[t]);
    SelectSome(CheckLines(checks), red);
    forall i | 0 <= i < |checks| ensures red(CheckLines(checks)[i]) <==> i == t && !checks[i].ok {
      RedMeansFailed(checks[i], names[t]);
    }
  }

  lemma NotOkMeansStopped(world: seq<StepResult>, teardown: StepResult, checks: seq<Check>, ran: seq<string>, t: nat)
    requires SuiteReports(world, teardown, checks, ran) && t < 12
    ensures !checks[t].ok <==> exists j :: 0 <= j <= t && !Succeeds(world[j])
  {
    if t < |ran| - 1 {
      assert checks[t] == Reported(LEVEL_TWO_STEPS[t], world[t]);
    } else {
      assert !Succeeds(world[|ran| - 2]);
    }
  }

  /** A mutated run is accepted exactly if its target, or any step before it,
      failed: the rule cannot tell a control that caught its sabotage from one
      that was never reached. */
  lemma MutatedAcceptance(lines: seq<string>, suite: Suite, mutation: string, t: nat,
                          world: seq<StepResult>, teardown: StepResult, ran: seq<string>)
    requires mutation != "none" && t < 12 && Printed(lines, suite, mutation)
    requires suite.Checks? ==> SuiteReports(world, teardown, suite.checks, ran)
    ensures Decide(lines, mutation, LEVEL_TWO_STEPS[t]).Accepted? <==>
      suite.Checks? && exists j :: 0 <= j <= t && !Succeeds(world[j])
  {
    var results := Reconciled(Given(suite), LEVEL_TWO_STEPS);
    RuleMeans(lines, results, mutation, LEVEL_TWO_STEPS[t]);
    StepsAreDistinct();
    StepsArePlain();
    match suite {
      case Checks(checks) =>
        SuiteIsComplete(world, teardown, checks, ran);
        NamesInOrder(world, teardown, checks, ran);
        RedMeansNotOk(checks, LEVEL_TWO_STEPS, t);
        NotOkMeansStopped(world, teardown, checks, ran, t);
      case SuiteThrew(kind) =>
        assert !Given(suite)[0].ok && Given(suite)[0].name == "harness";
        HarnessIsNoStep();
        ThrowCountsOneTooMany(Given(suite)[0], LEVEL_TWO_STEPS);
        assert [Given(suite)[0]] == Given(suite);
    }
  }

  /** In an accepted mutated run the target ran exactly if every step before it
      succeeded, and then it is the one that failed. */
  lemma AcceptedTargetRan(lines: seq<string>, suite: Suite, mutation: string, t: nat,
                          world: seq<StepResult>, teardown: StepResult, ran: seq<string>)
    requires mutation != "none" && t < 12 && Printed(lines, suite, mutation)
    requires suite.Checks? ==> SuiteReports(world, teardown, suite.checks, ran)
    requires Decide(lines, mutation, LEVEL_TWO_STEPS[t]).Accepted?
    ensures suite.Checks?
    ensures LEVEL_TWO_STEPS[t] in ran <==> forall j :: 0 <= j < t ==> Succeeds(world[j])
    ensures LEVEL_TWO_STEPS[t] in ran ==> !Succeeds(world[t])
  {
    MutatedAcceptance(lines, suite, mutation, t, world, teardown, ran);
    StepsAreDistinct();
    RanMeans(world, teardown, suite.checks, ran, t);
  }

  lemma RanMeans(world: seq<StepResult>, teardown: StepResult, checks: seq<Check>, ran: seq<string>, t: nat)
    requires SuiteReports(world, teardown, checks, ran) && t < 12 && Distinct(LEVEL_TWO_STEPS)
    ensures LEVEL_TWO_STEPS[t] in ran <==> t < |ran| - 1
    ensures t < |ran| - 1 <==> forall j :: 0 <= j < t ==> Succeeds(world[j])
  {
    assert LEVEL_TWO_STEPS[12] == TEARDOWN;
    if t < |ran| - 1 {
      assert ran[t] == LEVEL_TWO_STEPS[t];
    } else {
      assert !Succeeds(world[|ran| - 2]);
      forall k | 0 <= k < |ran| ensures ran[k] != LEVEL_TWO_STEPS[t] {
        assert k < |ran| - 1 ==> ran[k] == LEVEL_TWO_STEPS[k];
      }
    }
  }

  lemma CheckIsRunLine(c: Check)
    ensures IsRunLine(CheckLine(c))
  {
    assert "LEVEL2_" <= CHECK_PREFIX <= CheckLine(c);
  }

  lemma SummaryIsRunLine(mutation: string, passed: nat, total: nat)
    ensures IsRunLine(SummaryLine(mutation, passed, total))
  {
    assert "LEVEL2_" <= SUMMARY_PREFIX && "LEVEL2_" <= MUTATED_SUMMARY_PREFIX;
    assert PrefixFor(mutation) <= SummaryLine(mutation, passed, total);
  }

  /** A log with nothing in it but what the harness printed. */
  lemma PrintedIsPrinted(suite: Suite, mutation: string, results: seq<Check>)
    requires results == Reconciled(Given(suite), LEVEL_TWO_STEPS)
    ensures Printed(CheckLines(results) + [SummaryLine(mutation, CountOk(results), |results|)], suite, mutation)
  {
    forall i | 0 <= i < |results| ensures IsRunLine(CheckLines(results)[i]) { CheckIsRunLine(results[i]); }
    SummaryIsRunLine(mutation, CountOk(results), |results|);
    SelectAll(CheckLines(results), IsRunLine);
    SelectLast(CheckLines(results), SummaryLine(mutation, CountOk(results), |results|), IsRunLine);
  }

  /** The mutation that has the counterparty read an intact message, and the step
      that it is to turn red. */
  const INTACT_CONTROL := "intact_control_to_nio"

  lemma NamedSteps()
    ensures LEVEL_TWO_STEPS[0] == "machine_created" && LEVEL_TWO_STEPS[9] == "nio_refuses_corrupted_ciphertext"
  {}

  lemma StopsAtOnce(world: seq<StepResult>, teardown: StepResult, checks: seq<Check>, ran: seq<string>)
    requires SuiteReports(world, teardown, checks, ran) && !Succeeds(world[0])
    ensures ran == [LEVEL_TWO_STEPS[0], TEARDOWN]
  {}

  /** A run of it whose first step fails: the host accepts it, and the sabotaged
      step was never run. */
  method AcceptUnreached(failure: string, teardown: StepResult) returns (lines: seq<string>, ran: seq<string>)
    ensures Decide(lines, INTACT_CONTROL, "nio_refuses_corrupted_ciphertext").Accepted?
    ensures ran == ["machine_created", TEARDOWN]
  {
    var world := [Threw(failure)] + seq(11, _ => Returned(true, ""));
    var checks, results;
    checks, ran := RunSuite(world, teardown);
    results, lines := RunHarness(Checks(checks), INTACT_CONTROL, LEVEL_TWO_STEPS);
    PrintedIsPrinted(Checks(checks), INTACT_CONTROL, results);
    StopsAtOnce(world, teardown, checks, ran);
    NamedSteps();
    MutatedAcceptance(lines, Checks(checks), INTACT_CONTROL, 9, world, teardown, ran);
  }

  lemma NamesInOrder(world: seq<StepResult>, teardown: StepResult, checks: seq<Check>, ran: seq<string>)
    requires SuiteReports(world, teardown, checks, ran)
    ensures forall i :: 0 <= i < 13 ==> checks[i].name == LEVEL_TWO_STEPS[i]
  {}

  lemma HarnessIsNoStep()
    ensures "harness" !in LEVEL_TWO_STEPS
  {
    StepShapes();
    assert forall i :: 0 <= i < 13 ==> SHAPES[i] != Shape("harness");
  }
}
