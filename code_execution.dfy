/**
 * The grading pipeline of app/actions/code-execution.ts: `executeCode`
 * routes a submission to a language runner, `runTestCases` runs it once per
 * test case and compares the value it printed with the expected text, and
 * `validateAlgorithm` turns the pass count into a score, a verdict and
 * feedback lines.
 *
 * Runners are not executed.  The JavaScript runner evaluates the submitted
 * code, so its outcome is a parameter; the Python, Java and C++ simulators
 * are modelled line by line, with the library calls they make (`JSON.parse`,
 * `Array.prototype.sort`, `JSON.stringify`, `indexOf`) given as parameters.
 * Timing and memory figures are left out.
 */
module CodeExecution {
  import opened Wrappers
  import opened Text
  import opened Sequences

  /** What one run reports: success, the printed output, and an optional error text. */
  datatype ExecutionResult = ExecutionResult(success: bool, output: string, error: Option<string>)

  /**
   * What evaluating the JavaScript wrapper produced: the joined output and
   * error lines, or what it threw (the message when it was an `Error`).
   */
  datatype JsOutcome = Evaluated(output: string, errors: string) | Threw(message: Option<string>)

  /**
   * The parts of a run this model does not compute: the evaluation of the
   * JavaScript wrapper, and the simulators' library calls on the test input
   * (None when `JSON.parse` or the spread of its result throws).
   */
  datatype Environment = Environment(
    evalJavaScript: (string, string) -> JsOutcome,
    sortedJson: string -> Option<string>,
    searchIndex: string -> Option<string>)

  /** The runners `executeCode` can route to. */
  datatype Runner = JavaScriptRunner | PythonRunner | JavaRunner | CppRunner

  // ---------------------------------------------------------------------------
  // Runners
  // ---------------------------------------------------------------------------

  /**
   * `executeJavaScript`: a completed evaluation is a success (an empty output
   * is replaced by a fixed message, an empty error text is dropped); a thrown
   * evaluation is the failure record.
   */
  function ExecuteJavaScript(code: string, input: string, env: Environment): (r: ExecutionResult)
    ensures r.success <==> env.evalJavaScript(code, input).Evaluated?
    ensures r.success ==> r.output != ""
    ensures !r.success ==> r.output == "" && r.error.Some?
  {
    match env.evalJavaScript(code, input)
    case Evaluated(output, errors) =>
      ExecutionResult(true,
                      if output == "" then "Code executed successfully" else output,
                      if errors == "" then None else Some(errors))
    case Threw(message) =>
      ExecutionResult(false, "", Some(message.GetOr("Execution error")))
  }

  /** The line a simulator prints about the input, when there is one. */
  function InputLine(input: string): string {
    "Input processed: " + input + BackslashN
  }

  /** The outcome text of a simulated sort: the sorted array, or the simulator's error text. */
  function SortOutcome(sorted: Option<string>, name: string): string {
    match sorted
    case Some(text) => name + " sort result: " + text
    case None => "Error processing input for " + ToLower(name) + " sort"
  }

  /**
   * `executePython`: always a success; the output starts with a banner, and
   * with an input adds the input line and the outcome of the algorithm the
   * code names, where a malformed input is reported as text.
   */
  function ExecutePython(code: string, input: string, env: Environment): (r: ExecutionResult)
    ensures r.success && r.error.None?
    ensures input == "" ==> r.output == "Python code executed successfully" + BackslashN
    ensures input != "" ==> "Python code executed successfully" + BackslashN + InputLine(input) <= r.output
  {
    var banner := "Python code executed successfully" + BackslashN;
    var output :=
      if input == "" then banner
      else
        banner + InputLine(input) +
        (if Contains(code, "bubble_sort") then SortOutcome(env.sortedJson(input), "Bubble")
         else if Contains(code, "quick_sort") then SortOutcome(env.sortedJson(input), "Quick")
         else if Contains(code, "binary_search") then
           (match env.searchIndex(input)
            case Some(index) => "Binary search result: " + index
            case None => "Error processing input for binary search")
         else "");
    ExecutionResult(true, output, None)
  }

  /** `executeJava`: always a success; only code naming `bubbleSort` gets a simulated result. */
  function ExecuteJava(code: string, input: string, env: Environment): (r: ExecutionResult)
    ensures r.success && r.error.None?
    ensures input == "" ==> r.output == "Java code compiled and executed successfully" + BackslashN
    ensures input != "" && !Contains(code, "bubbleSort") ==>
              r.output == "Java code compiled and executed successfully" + BackslashN + InputLine(input)
  {
    var banner := "Java code compiled and executed successfully" + BackslashN;
    var output :=
      if input == "" then banner
      else
        banner + InputLine(input) +
        (if Contains(code, "bubbleSort") then SortOutcome(env.sortedJson(input), "Bubble") else "");
    ExecutionResult(true, output, None)
  }

  /** `executeCpp`: always a success; code naming `bubbleSort` or `BubbleSort` gets a simulated result. */
  function ExecuteCpp(code: string, input: string, env: Environment): (r: ExecutionResult)
    ensures r.success && r.error.None?
    ensures input == "" ==> r.output == "C++ code compiled and executed successfully" + BackslashN
    ensures input != "" && !Contains(code, "bubbleSort") && !Contains(code, "BubbleSort") ==>
              r.output == "C++ code compiled and executed successfully" + BackslashN + InputLine(input)
  {
    var banner := "C++ code compiled and executed successfully" + BackslashN;
    var output :=
      if input == "" then banner
      else
        banner + InputLine(input) +
        (if Contains(code, "bubbleSort") || Contains(code, "BubbleSort")
         then SortOutcome(env.sortedJson(input), "Bubble") else "");
    ExecutionResult(true, output, None)
  }

  // ---------------------------------------------------------------------------
  // executeCode
  // ---------------------------------------------------------------------------

  /** The runner `executeCode` chooses for a language name, compared in lower case. */
  function RunnerFor(language: string): (r: Option<Runner>)
    ensures r.None? <==> ToLower(language) !in {"javascript", "python", "java", "cpp", "c++"}
    ensures r == Some(CppRunner) <==> ToLower(language) in {"cpp", "c++"}
  {
    match ToLower(language)
    case "javascript" => Some(JavaScriptRunner)
    case "python" => Some(PythonRunner)
    case "java" => Some(JavaRunner)
    case "cpp" => Some(CppRunner)
    case "c++" => Some(CppRunner)
    case _ => None
  }

  /** The choice of runner ignores the case of the language name. */
  lemma RunnerForIgnoresCase(language: string)
    ensures RunnerFor(language) == RunnerFor(ToLower(language))
  {
    LowerIdempotent(language);
  }

  /** The failure record for a language no runner handles. */
  function Unsupported(language: string): ExecutionResult {
    ExecutionResult(false, "", Some("Language " + language + " not supported"))
  }

  /**
   * `executeCode`: the result of the chosen runner, or the failure record
   * naming the language as given.  Every failure has an empty output and an
   * error text; the simulated languages never fail.
   */
  function ExecuteCode(code: string, language: string, input: string, env: Environment): (r: ExecutionResult)
    ensures RunnerFor(language).None? ==> r == Unsupported(language)
    ensures RunnerFor(language) == Some(JavaScriptRunner) ==> r == ExecuteJavaScript(code, input, env)
    ensures RunnerFor(language) in {Some(PythonRunner), Some(JavaRunner), Some(CppRunner)} ==> r.success
    ensures !r.success ==> r.output == "" && r.error.Some?
  {
    match RunnerFor(language)
    case Some(JavaScriptRunner) => ExecuteJavaScript(code, input, env)
    case Some(PythonRunner) => ExecutePython(code, input, env)
    case Some(JavaRunner) => ExecuteJava(code, input, env)
    case Some(CppRunner) => ExecuteCpp(code, input, env)
    case None => Unsupported(language)
  }

  // ---------------------------------------------------------------------------
  // Extracting the printed value
  // ---------------------------------------------------------------------------

  const ResultMarker: string := "Result: "

  /**
   * The value `runTestCases` compares: with a "Result: " marker, the text
   * after the first marker up to the next marker or the first backslash-n;
   * without one, the whole output.
   */
  function ExtractActual(output: string): (actual: string)
    ensures !Contains(output, ResultMarker) ==> actual == output
    ensures Contains(output, ResultMarker) ==>
              && !Contains(actual, ResultMarker)
              && !Contains(actual, BackslashN)
              && CutAtFirstStop(AfterFirstMarker(output), actual)
  {
    if Contains(output, ResultMarker) then
      SplitHasSecond(output, ResultMarker);
      var i := IndexOf(output, ResultMarker).value;
      var rest := output[i + |ResultMarker|..];
      var afterMarker := Split(output, ResultMarker)[1];
      var actual := Split(afterMarker, BackslashN)[0];
      assert afterMarker == Split(rest, ResultMarker)[0] by {
        assert Split(output, ResultMarker)[1..] == Split(rest, ResultMarker);
      }
      CutPieces(rest, afterMarker, actual);
      SplitFirst(afterMarker, BackslashN);
      SplitPiecesFree(afterMarker, BackslashN);
      SplitPiecesFree(output, ResultMarker);
      PrefixKeepsAbsence(afterMarker, actual, ResultMarker);
      actual
    else
      output
  }

  /** The text after the first marker of an output that has one. */
  function AfterFirstMarker(output: string): string
    requires Contains(output, ResultMarker)
  {
    output[IndexOf(output, ResultMarker).value + |ResultMarker|..]
  }

  /**
   * `actual` is the part of `rest` before the first marker or backslash-n
   * that starts in it, or all of `rest` when none does.
   */
  predicate CutAtFirstStop(rest: string, actual: string) {
    && actual <= rest
    && (forall j :: 0 <= j < |actual| ==> !OccursAt(rest, ResultMarker, j) && !OccursAt(rest, BackslashN, j))
    && (|actual| == |rest| || OccursAt(rest, ResultMarker, |actual|) || OccursAt(rest, BackslashN, |actual|))
  }

  /** At most one text is cut from `rest` at its first stop, so the extracted value is determined. */
  lemma CutIsUnique(rest: string, a: string, b: string)
    requires CutAtFirstStop(rest, a) && CutAtFirstStop(rest, b)
    ensures a == b
  {
  }

  /** The marker starts with 'R', so no backslash-n ends where a marker begins. */
  lemma NoBackslashNBeforeMarker(s: string, i: nat)
    requires 1 <= i && OccursAt(s, ResultMarker, i)
    ensures !OccursAt(s, BackslashN, i - 1)
  {
    assert s[i] == s[i..i + |ResultMarker|][0] == 'R';
  }

  /** The first piece of the first piece of two splits is the cut at the first stop. */
  lemma CutPieces(rest: string, afterMarker: string, actual: string)
    requires afterMarker == Split(rest, ResultMarker)[0]
    requires actual == Split(afterMarker, BackslashN)[0]
    ensures CutAtFirstStop(rest, actual)
  {
    SplitFirst(rest, ResultMarker);
    SplitFirst(afterMarker, BackslashN);
    var m := IndexOf(rest, ResultMarker);
    var n := IndexOf(afterMarker, BackslashN);
    assert afterMarker <= rest;
    assert actual <= afterMarker;
    assert |afterMarker| == |rest| || OccursAt(rest, ResultMarker, |afterMarker|);
    forall j | 0 <= j < |actual|
      ensures !OccursAt(rest, ResultMarker, j) && !OccursAt(rest, BackslashN, j)
    {
      if OccursAt(rest, BackslashN, j) {
        BackslashNWithinPiece(rest, afterMarker, j);
        OccursInPrefix(rest, afterMarker, BackslashN, j);
      }
    }
    if n.Some? {
      OccursInPrefix(rest, afterMarker, BackslashN, |actual|);
    }
  }

  /** A backslash-n starting inside the text before a marker ends before that marker. */
  lemma BackslashNWithinPiece(rest: string, afterMarker: string, j: nat)
    requires afterMarker <= rest
    requires |afterMarker| == |rest| || OccursAt(rest, ResultMarker, |afterMarker|)
    requires j < |afterMarker| && OccursAt(rest, BackslashN, j)
    ensures j + |BackslashN| <= |afterMarker|
  {
    if |afterMarker| < |rest| && j + 1 == |afterMarker| {
      NoBackslashNBeforeMarker(rest, |afterMarker|);
    }
  }

  /** Within a prefix of `s`, `sub` occurs at `j` in the prefix exactly when it does in `s`. */
  lemma OccursInPrefix(s: string, p: string, sub: string, j: nat)
    requires p <= s && j + |sub| <= |p|
    ensures OccursAt(p, sub, j) <==> OccursAt(s, sub, j)
  {
    assert p[j..j + |sub|] == s[j..j + |sub|];
  }

  /** A prefix of a text that lacks `sub` lacks it too. */
  lemma PrefixKeepsAbsence(s: string, p: string, sub: string)
    requires p <= s && !Contains(s, sub)
    ensures !Contains(p, sub)
  {
    forall i | 0 <= i <= |p| - |sub| ensures !OccursAt(p, sub, i) {
      assert !OccursAt(s, sub, i);
      assert p[i..i + |sub|] == s[i..i + |sub|];
    }
  }

  /**
   * Printing the marker and then a value free of markers and of backslash-n
   * makes that value the extracted one.
   */
  lemma ExtractMarkedValue(value: string)
    requires !Contains(value, ResultMarker) && !Contains(value, BackslashN)
    ensures ExtractActual(ResultMarker + value) == value
  {
    var output := ResultMarker + value;
    assert OccursAt(output, ResultMarker, 0);
    assert IndexOf(output, ResultMarker) == Some(0);
    assert output[|ResultMarker|..] == value;
    var actual := ExtractActual(output);
    assert actual <= value;
    IndexOfAbsent(value, ResultMarker);
    IndexOfAbsent(value, BackslashN);
    assert Split(output, ResultMarker) == [""] + Split(value, ResultMarker);
    assert Split(value, ResultMarker) == [value];
    assert Split(value, BackslashN) == [value];
  }

  lemma IndexOfAbsent(s: string, sub: string)
    requires !Contains(s, sub)
    ensures IndexOf(s, sub) == None
  {
  }

  // ---------------------------------------------------------------------------
  // runTestCases
  // ---------------------------------------------------------------------------

  datatype TestCase = TestCase(input: string, expected: string)

  datatype TestResult = TestResult(passed: bool, input: string, expected: string, actual: string, error: Option<string>)

  /** How a call of the executor ended: with a result, or by throwing (with the `Error`'s message). */
  datatype Attempt = Returned(result: ExecutionResult) | Raised(message: Option<string>)

  /**
   * The record `runTestCases` pushes for one test case: the input and the
   * expected text copied, the trimmed extracted value, and a verdict that
   * compares trimmed texts only; the run's error is carried along without
   * deciding the verdict.  A thrown execution is a failure with no value.
   */
  function GradeCase(tc: TestCase, attempt: Attempt): (r: TestResult)
    ensures r.input == tc.input && r.expected == tc.expected
    ensures attempt.Raised? ==> !r.passed && r.actual == "" && r.error == Some(attempt.message.GetOr("Unknown error"))
    ensures attempt.Returned? ==>
              && r.actual == Trim(ExtractActual(attempt.result.output))
              && (r.passed <==> r.actual == Trim(tc.expected))
              && r.error == attempt.result.error
  {
    match attempt
    case Returned(execution) =>
      var actual := ExtractActual(execution.output);
      TestResult(Trim(actual) == Trim(tc.expected), tc.input, tc.expected, Trim(actual), execution.error)
    case Raised(message) =>
      TestResult(false, tc.input, tc.expected, "", Some(message.GetOr("Unknown error")))
  }

  /** A failed run prints nothing, so it passes exactly the cases whose expected text is blank. */
  lemma FailedRunPassesOnlyBlank(tc: TestCase, result: ExecutionResult)
    requires !result.success && result.output == ""
    ensures GradeCase(tc, Returned(result)).passed <==> Trim(tc.expected) == ""
  {
    assert !Contains("", ResultMarker) by {
      assert |ResultMarker| > 0;
    }
    assert Trim("") == "";
  }

  /** A run that prints the marker and then the expected value passes. */
  lemma MarkedExpectedPasses(tc: TestCase, error: Option<string>)
    requires !Contains(tc.expected, ResultMarker) && !Contains(tc.expected, BackslashN)
    ensures GradeCase(tc, Returned(ExecutionResult(true, ResultMarker + tc.expected, error))).passed
  {
    ExtractMarkedValue(tc.expected);
  }

  /** The record for one test case: the code run on the case's input, then graded. */
  function RunCase(code: string, language: string, testCase: TestCase, env: Environment): TestResult {
    GradeCase(testCase, Returned(ExecuteCode(code, language, testCase.input, env)))
  }

  /** The records of running every case, in order. */
  function RunAll(code: string, language: string, testCases: seq<TestCase>, env: Environment): (results: seq<TestResult>)
    ensures |results| == |testCases|
  {
    if testCases == [] then []
    else RunAll(code, language, testCases[..|testCases| - 1], env) + [RunCase(code, language, testCases[|testCases| - 1], env)]
  }

  /** Running one more case appends its record. */
  lemma RunAllStep(code: string, language: string, testCases: seq<TestCase>, env: Environment, k: nat)
    requires k < |testCases|
    ensures RunAll(code, language, testCases[..k + 1], env)
            == RunAll(code, language, testCases[..k], env) + [RunCase(code, language, testCases[k], env)]
  {
    assert testCases[..k + 1][..k] == testCases[..k];
  }

  /** The `k`-th record is the graded run of the `k`-th case. */
  lemma {:induction false} RunAllAt(code: string, language: string, testCases: seq<TestCase>, env: Environment)
    ensures forall k :: 0 <= k < |testCases| ==>
              RunAll(code, language, testCases, env)[k] == RunCase(code, language, testCases[k], env)
  {
    if testCases != [] {
      var front := testCases[..|testCases| - 1];
      RunAllAt(code, language, front, env);
      forall k | 0 <= k < |testCases| - 1
        ensures RunAll(code, language, testCases, env)[k] == RunCase(code, language, testCases[k], env)
      {
        assert front[k] == testCases[k];
      }
    }
  }

  /**
   * `runTestCases`: runs the code once per test case, in order, and records
   * the graded outcome of each run.
   */
  method RunTestCases(code: string, language: string, testCases: seq<TestCase>, env: Environment)
    returns (results: seq<TestResult>)
    ensures results == RunAll(code, language, testCases, env)
    ensures |results| == |testCases|
    ensures forall k :: 0 <= k < |testCases| ==> results[k] == RunCase(code, language, testCases[k], env)
  {
    results := [];
    for k := 0 to |testCases|
      invariant results == RunAll(code, language, testCases[..k], env)
    {
      var testCase := testCases[k];
      var execution := ExecuteCode(code, language, testCase.input, env);
      var outcome := GradeCase(testCase, Returned(execution));
      RunAllStep(code, language, testCases, env, k);
      results := results + [outcome];
    }
    assert testCases[..|testCases|] == testCases;
    RunAllAt(code, language, testCases, env);
  }

  // ---------------------------------------------------------------------------
  // validateAlgorithm
  // ---------------------------------------------------------------------------

  /** The four cases `validateAlgorithm` grades, whatever algorithm it is asked about. */
  const MockTestCases: seq<TestCase> := [
    TestCase("[64, 34, 25, 12, 22, 11, 90]", "[11, 12, 22, 25, 34, 64, 90]"),
    TestCase("[5, 2, 8, 1, 9]", "[1, 2, 5, 8, 9]"),
    TestCase("[1]", "[1]"),
    TestCase("[]", "[]")
  ]

  /** The number of passed results. */
  function CountPassed(results: seq<TestResult>): (n: nat)
    ensures n <= |results|
    ensures n == |results| <==> forall k :: 0 <= k < |results| ==> results[k].passed
  {
    if results == [] then 0
    else CountPassed(results[..|results| - 1]) + (if results[|results| - 1].passed then 1 else 0)
  }

  /** The failed results, in their original order. */
  function Failures(results: seq<TestResult>): (failed: seq<TestResult>)
    ensures |failed| == |results| - CountPassed(results)
    ensures forall k :: 0 <= k < |failed| ==> !failed[k].passed
    ensures IsSubsequence(failed, results)
    ensures forall t :: t in failed <==> t in results && !t.passed
  {
    if results == [] then []
    else
      var init := results[..|results| - 1];
      var last := results[|results| - 1];
      assert results == init + [last];
      FailuresStep(init, last, Failures(init));
      if last.passed then Failures(init) else Failures(init) + [last]
  }

  /** Extending the results by one keeps the failures an order-preserving selection of exactly the failed results. */
  lemma FailuresStep(init: seq<TestResult>, last: TestResult, failed: seq<TestResult>)
    requires IsSubsequence(failed, init)
    requires forall t :: t in failed <==> t in init && !t.passed
    requires forall k :: 0 <= k < |failed| ==> !failed[k].passed
    ensures var next := if last.passed then failed else failed + [last];
            && IsSubsequence(next, init + [last])
            && (forall t :: t in next <==> t in init + [last] && !t.passed)
            && (forall k :: 0 <= k < |next| ==> !next[k].passed)
  {
    SubsequenceSnoc(failed, init, last);
  }

  /** `Math.round(100 * passed / total)`: the percentage, rounded half up. */
  function RoundedPercent(passed: nat, total: nat): nat
    requires 0 < total
  {
    (200 * passed + total) / (2 * total)
  }

  /** The score is a percentage: nothing passed is 0, everything passed is 100. */
  lemma RoundedPercentBounds(passed: nat, total: nat)
    requires 0 < total && passed <= total
    ensures RoundedPercent(passed, total) <= 100
    ensures passed == total ==> RoundedPercent(passed, total) == 100
    ensures passed == 0 ==> RoundedPercent(passed, total) == 0
  {
    DivMonotonic(200 * passed + total, 201 * total, 2 * total);
    DivUnique(201 * total, 2 * total, 100, total);
    DivUnique(total, 2 * total, 0, total);
  }

  /** More passes never lower the score. */
  lemma RoundedPercentMonotonic(p: nat, q: nat, total: nat)
    requires 0 < total && p <= q <= total
    ensures RoundedPercent(p, total) <= RoundedPercent(q, total)
  {
    DivMonotonic(200 * p + total, 200 * q + total, 2 * total);
  }

  /** `k` copies of a positive `d` make at least `d`. */
  lemma {:induction false} MulAtLeast(d: nat, k: int)
    requires k >= 1
    ensures d * k >= d
    decreases k
  {
    if k > 1 {
      MulAtLeast(d, k - 1);
      assert d * k == d * (k - 1) + d;
    }
  }

  /** Division is determined by quotient and remainder. */
  lemma DivUnique(a: int, d: int, q: int, r: int)
    requires 0 < d && 0 <= r < d && a == d * q + r
    ensures a / d == q
  {
    var q' := a / d;
    if q > q' {
      assert d * (q - q') == d * q - d * q';
      MulAtLeast(d, q - q');
    } else if q < q' {
      assert d * (q' - q) == d * q' - d * q;
      MulAtLeast(d, q' - q);
    }
  }

  /** Division by a positive number is monotonic. */
  lemma DivMonotonic(a: int, b: int, d: int)
    requires a <= b && 0 < d
    ensures a / d <= b / d
  {
    if a / d > b / d {
      assert d * (a / d - b / d) == d * (a / d) - d * (b / d);
      MulAtLeast(d, a / d - b / d);
    }
  }

  /** With four cases the score is 25 points per pass. */
  lemma ScoreOfFour(passed: nat)
    requires passed <= 4
    ensures RoundedPercent(passed, 4) == 25 * passed
  {
    DivUnique(200 * passed + 4, 8, 25 * passed, 4);
  }

  const PerfectLines: seq<string> :=
    ["🎉 Perfect! All test cases passed.", "Your implementation is correct and handles all edge cases."]
  const GoodLines: seq<string> :=
    ["✅ Good job! Most test cases passed.", "Review the failed test cases to improve your solution."]
  const PartialLines: seq<string> :=
    ["⚠️ Your solution works for some cases but needs improvement.", "Check your algorithm logic and edge case handling."]
  const PoorLines: seq<string> :=
    ["❌ Your solution needs significant improvements.", "Review the algorithm description and try again."]

  /** The two opening lines, chosen by score band. */
  function Bands(score: int): (lines: seq<string>)
    ensures |lines| == 2
  {
    if score == 100 then PerfectLines
    else if score >= 75 then GoodLines
    else if score >= 50 then PartialLines
    else PoorLines
  }

  /**
   * With the four fixed cases the band follows the number of passes: all
   * four is perfect, three is good, two is partial, fewer is poor; and the
   * two upper bands are exactly the valid reports.
   */
  lemma BandOfFourCases(passed: nat)
    requires passed <= 4
    ensures Bands(25 * passed) ==
              if passed == 4 then PerfectLines
              else if passed == 3 then GoodLines
              else if passed == 2 then PartialLines
              else PoorLines
    ensures Bands(25 * passed) in {PerfectLines, GoodLines} <==> 25 * passed >= 70
  {
    assert PerfectLines[1] != PartialLines[1] && PerfectLines[1] != PoorLines[1];
    assert GoodLines[1] != PartialLines[1] && GoodLines[1] != PoorLines[1];
  }

  /** The header before the failure lines; it begins with a backslash and `n`. */
  const FailedHeader: string := "\\nFailed test cases:"

  /** The line for the `number`-th failure. */
  function FailureLine(number: nat, failed: TestResult): string {
    "Test " + NatToString(number) + ": Expected " + failed.expected + ", got " + failed.actual
  }

  /**
   * The feedback of `validateAlgorithm`: the two band lines, then, when some
   * case failed, the header and one line per failure numbered 1, 2, ... in
   * the order of the failures.
   */
  method BuildFeedback(score: int, results: seq<TestResult>) returns (feedback: seq<string>)
    ensures var failed := Failures(results);
            |feedback| == if failed == [] then 2 else 3 + |failed|
    ensures feedback[..2] == Bands(score)
    ensures var failed := Failures(results);
            failed != [] ==>
              feedback[2] == FailedHeader &&
              forall k :: 0 <= k < |failed| ==> feedback[3 + k] == FailureLine(k + 1, failed[k])
  {
    var bands := Bands(score);
    var failedTests := Failures(results);
    var lines := [];
    if |failedTests| > 0 {
      lines := FailureSection(failedTests);
    }
    feedback := bands + lines;
    assert feedback[..2] == bands;
  }

  /** The failure part of the feedback: the header, then one numbered line per failure, in order. */
  method FailureSection(failedTests: seq<TestResult>) returns (lines: seq<string>)
    ensures |lines| == 1 + |failedTests| && lines[0] == FailedHeader
    ensures forall k :: 0 <= k < |failedTests| ==> lines[1 + k] == FailureLine(k + 1, failedTests[k])
  {
    lines := [FailedHeader];
    for index := 0 to |failedTests|
      invariant |lines| == 1 + index && lines[0] == FailedHeader
      invariant forall k :: 0 <= k < index ==> lines[1 + k] == FailureLine(k + 1, failedTests[k])
    {
      lines := lines + [FailureLine(index + 1, failedTests[index])];
    }
  }

  datatype ValidationReport = ValidationReport(
    isValid: bool,
    score: nat,
    passedTests: nat,
    totalTests: nat,
    results: seq<TestResult>,
    feedback: seq<string>)

  /**
   * `validateAlgorithm`: grades the four fixed cases (the algorithm id is not
   * used), scores 25 points per pass, and accepts from three passes on.
   */
  method ValidateAlgorithm(algorithmId: int, userCode: string, language: string, env: Environment)
    returns (report: ValidationReport)
    ensures report.totalTests == 4 && report.passedTests <= 4
    ensures |report.results| == 4
    ensures forall k :: 0 <= k < 4 ==>
              report.results[k] == RunCase(userCode, language, MockTestCases[k], env)
    ensures report.passedTests == CountPassed(report.results)
    ensures report.score == 25 * report.passedTests
    ensures report.isValid <==> report.passedTests >= 3
    ensures report.isValid <==> report.score >= 70
    ensures |report.feedback| == if report.passedTests == 4 then 2 else 7 - report.passedTests
    ensures report.feedback[..2] == Bands(report.score)
    ensures var failed := Failures(report.results);
            failed != [] ==>
              report.feedback[2] == FailedHeader &&
              forall k :: 0 <= k < |failed| ==> report.feedback[3 + k] == FailureLine(k + 1, failed[k])
  {
    var results := RunTestCases(userCode, language, MockTestCases, env);
    var passedTests := CountPassed(results);
    var totalTests := |results|;
    var score := RoundedPercent(passedTests, totalTests);
    ScoreOfFour(passedTests);
    var feedback := BuildFeedback(score, results);
    report := ValidationReport(score >= 70, score, passedTests, totalTests, results, feedback);
  }
}
