/**
 * The pure parts of app/components/code-editor.tsx: the algorithm the editor
 * is bound to, the guards in front of the three actions, the test cases it
 * sends, the counts it reports, the file name of a saved file and the
 * starter template per language.
 */
module CodeEditor {
  import opened Wrappers
  import opened Text
  import opened Sequences
  import opened AlgorithmDatabase
  import CodeExecution

  /** `algorithmId ? algorithmDatabase.find(...) : null`: an absent or zero id selects nothing. */
  function SelectedAlgorithm(algorithmId: Option<int>): (r: Option<Algorithm>)
    ensures r.Some? <==> algorithmId.Some? && 1 <= algorithmId.value <= 4
    ensures r.Some? ==> r.value in Database && r.value.id == algorithmId.value
  {
    match algorithmId
    case None => None
    case Some(id) => if id == 0 then None else GetAlgorithmById(id)
  }

  /** The three buttons that reach the runner. */
  datatype Action = Execute | RunTests | Validate

  /**
   * The guard at the top of each handler: blank code is always refused;
   * running the tests and validating also need a selected algorithm.
   */
  function MayProceed(action: Action, algorithm: Option<Algorithm>, code: string): (ok: bool)
    ensures ok ==> exists i :: 0 <= i < |code| && !IsWhitespace(code[i])
    ensures ok <==> Trim(code) != [] && (action == Execute || algorithm.Some?)
  {
    if action == Execute then Trim(code) != []
    else algorithm.Some? && Trim(code) != []
  }

  /** A refused action never depends on anything but blank code or a missing algorithm. */
  lemma BlankCodeRefused(action: Action, algorithm: Option<Algorithm>, code: string)
    ensures (forall i :: 0 <= i < |code| ==> IsWhitespace(code[i])) ==> !MayProceed(action, algorithm, code)
  {
    TrimEmptyIffBlank(code);
  }

  /** `algorithm.testCases.filter((tc) => !tc.hidden)`: the visible cases, in their order. */
  function VisibleTestCases(cases: seq<StoredTestCase>): (r: seq<StoredTestCase>)
    ensures IsSubsequence(r, cases)
    ensures forall c :: c in r <==> c in cases && !c.hidden
    ensures forall c :: multiset(r)[c] == if c.hidden then 0 else multiset(cases)[c]
    ensures |r| <= |cases|
  {
    if cases == [] then []
    else
      var rest := VisibleTestCases(cases[1..]);
      assert forall c :: c in cases <==> c == cases[0] || c in cases[1..];
      VisibleCountsStep(cases, rest);
      if cases[0].hidden then rest else [cases[0]] + rest
  }

  /** Filtering one more case in front keeps every visible case as often as it occurs. */
  lemma VisibleCountsStep(cases: seq<StoredTestCase>, rest: seq<StoredTestCase>)
    requires cases != []
    requires forall c :: multiset(rest)[c] == if c.hidden then 0 else multiset(cases[1..])[c]
    ensures var r := if cases[0].hidden then rest else [cases[0]] + rest;
            forall c :: multiset(r)[c] == if c.hidden then 0 else multiset(cases)[c]
  {
    assert cases == [cases[0]] + cases[1..];
    assert multiset(cases) == multiset([cases[0]]) + multiset(cases[1..]);
  }

  /** With no hidden case, every case is sent, in the same order. */
  lemma {:induction false} NoHiddenSendsAll(cases: seq<StoredTestCase>)
    requires forall k :: 0 <= k < |cases| ==> !cases[k].hidden
    ensures VisibleTestCases(cases) == cases
  {
    if cases != [] {
      NoHiddenSendsAll(cases[1..]);
      assert cases == [cases[0]] + cases[1..];
    }
  }

  /** The cases as the runner takes them: the input and the expected text. */
  function RunnerCases(cases: seq<StoredTestCase>): (r: seq<CodeExecution.TestCase>)
    ensures |r| == |cases|
    ensures forall k :: 0 <= k < |r| ==> r[k].input == cases[k].input && r[k].expected == cases[k].expected
  {
    seq(|cases|, k requires 0 <= k < |cases| => CodeExecution.TestCase(cases[k].input, cases[k].expected))
  }

  /** `handleRunTests`: the runner's results for the visible cases of the selected algorithm. */
  method RunVisibleTests(algorithm: Algorithm, code: string, language: string, env: CodeExecution.Environment)
    returns (results: seq<CodeExecution.TestResult>, passedCount: nat)
    ensures var sent := RunnerCases(VisibleTestCases(algorithm.testCases));
      && |results| == |sent|
      && forall k :: 0 <= k < |sent| ==> results[k] == CodeExecution.RunCase(code, language, sent[k], env)
    ensures passedCount == CodeExecution.CountPassed(results) && passedCount <= |results|
  {
    var sent := RunnerCases(VisibleTestCases(algorithm.testCases));
    results := CodeExecution.RunTestCases(code, language, sent, env);
    passedCount := CodeExecution.CountPassed(results);
  }

  /** The "failed" figure of the validation panel: total minus passed. */
  function FailedCount(report: CodeExecution.ValidationReport): int {
    report.totalTests - report.passedTests
  }

  /**
   * For a report whose counts are taken from its results, as
   * `validateAlgorithm` produces it, the failed figure is the number of
   * failed results and the two figures add up to the total.
   */
  lemma FailedCountCountsFailures(report: CodeExecution.ValidationReport)
    requires report.passedTests == CodeExecution.CountPassed(report.results)
    requires report.totalTests == |report.results|
    ensures FailedCount(report) == |CodeExecution.Failures(report.results)| >= 0
    ensures FailedCount(report) + report.passedTests == report.totalTests
    ensures FailedCount(report) == 0 <==> forall k :: 0 <= k < |report.results| ==> report.results[k].passed
  {
  }

  /** The extension of each language `getFileExtension` knows, by lower-cased name. */
  const KnownExtensions: map<string, string> := map[
    "javascript" := "js", "python" := "py", "java" := "java", "cpp" := "cpp", "c++" := "cpp",
    "go" := "go", "rust" := "rs", "typescript" := "ts"]

  /** `getFileExtension`: chosen by the lower-cased language name, "txt" when it is none of those known. */
  function FileExtension(language: string): (ext: string)
    ensures var lower := ToLower(language);
      ext == if lower in KnownExtensions then KnownExtensions[lower] else "txt"
  {
    var lower := ToLower(language);
    if lower == "javascript" then "js"
    else if lower == "python" then "py"
    else if lower == "java" then "java"
    else if lower == "cpp" || lower == "c++" then "cpp"
    else if lower == "go" then "go"
    else if lower == "rust" then "rs"
    else if lower == "typescript" then "ts"
    else "txt"
  }

  /** The extension ignores the case of the language name. */
  lemma FileExtensionIgnoresCase(language: string)
    ensures FileExtension(ToLower(language)) == FileExtension(language)
  {
    LowerIdempotent(language);
  }

  /**
   * `algorithm?.name.replace(/\s+/g, "_") || "algorithm"`: the name with each
   * white-space run replaced by "_", or "algorithm" when there is no
   * algorithm or the name is empty.
   */
  function BaseName(algorithm: Option<Algorithm>): (base: string)
    ensures base != [] && NoWhitespace(base)
    ensures algorithm.None? || algorithm.value.name == [] ==> base == "algorithm"
    ensures algorithm.Some? && NoWhitespace(algorithm.value.name) && algorithm.value.name != [] ==>
              base == algorithm.value.name
    ensures algorithm.Some? && algorithm.value.name != [] ==>
              base == ReplaceWhitespaceRuns(algorithm.value.name, "_")
  {
    match algorithm
    case None => "algorithm"
    case Some(a) =>
      SanitizedName(a.name);
      var replaced := ReplaceWhitespaceRuns(a.name, "_");
      if replaced != [] then replaced else "algorithm"
  }

  /** `handleSave`'s file name: the base name, ".", then the extension; the part before the last "." is the base. */
  function SaveFilename(algorithm: Option<Algorithm>, language: string): (name: string)
    ensures |name| > |FileExtension(language)| + 1
    ensures name[..|name| - |FileExtension(language)| - 1] == BaseName(algorithm)
    ensures name[|name| - |FileExtension(language)| - 1] == '.'
    ensures name[|name| - |FileExtension(language)|..] == FileExtension(language)
  {
    BaseName(algorithm) + "." + FileExtension(language)
  }

  /** Bubble sort's name sanitises to "Bubble_Sort": its one space becomes "_". */
  lemma BubbleSortBaseName()
    ensures BaseName(GetAlgorithmById(1)) == "Bubble_Sort"
  {
    GetAlgorithmByIdOfEntry(0);
    assert GetAlgorithmById(1) == Some(BubbleSortEntry);
    BaseNameOfBubbleSort(BubbleSortEntry);
  }

  /** Any algorithm named "Bubble Sort" has the base name "Bubble_Sort". */
  lemma BaseNameOfBubbleSort(a: Algorithm)
    requires a.name == "Bubble Sort"
    ensures BaseName(Some(a)) == "Bubble_Sort"
  {
    SanitizedBubbleSort();
    assert "Bubble Sort" == "Bubble" + " " + "Sort";
    assert "Bubble" + "_" + "Sort" == "Bubble_Sort";
  }

  /** "Bubble Sort" has one white-space run, which becomes "_". */
  lemma SanitizedBubbleSort()
    ensures ReplaceWhitespaceRuns("Bubble" + " " + "Sort", "_") == "Bubble" + "_" + "Sort"
  {
    var first, space, second := "Bubble", " ", "Sort";
    assert NoWhitespace(first) && NoWhitespace(second) && Blank(space);
    ReplaceWhitespaceRunsRun(first, space, second, "_");
    ReplaceWhitespaceRunsIdentity(second, "_");
  }

  /** Saving bubble sort's JavaScript code offers "Bubble_Sort.js". */
  lemma BubbleSortFilename()
    ensures SaveFilename(GetAlgorithmById(1), "javascript") == "Bubble_Sort" + "." + "js"
  {
    BubbleSortBaseName();
    JavaScriptExtension();
  }

  /** JavaScript code is saved with the "js" extension. */
  lemma JavaScriptExtension()
    ensures FileExtension("javascript") == "js"
  {
    LowerIdempotent("javascript");
  }

  /** What replacing white-space runs by "_" does to a name. */
  lemma SanitizedName(name: string)
    ensures NoWhitespace(ReplaceWhitespaceRuns(name, "_"))
    ensures ReplaceWhitespaceRuns(name, "_") == [] <==> name == []
    ensures NoWhitespace(name) ==> ReplaceWhitespaceRuns(name, "_") == name
  {
    ReplaceWhitespaceRunsClean(name, "_");
    ReplaceWhitespaceRunsEmpty(name, "_");
    if NoWhitespace(name) {
      ReplaceWhitespaceRunsIdentity(name, "_");
    }
  }

  /** The starter templates of `getLanguageTemplate`. */
  datatype EditorTemplate = JavaScriptStarter | PythonStarter | JavaStarter | CppStarter | Placeholder

  /** The text of the `Placeholder` template. */
  const PlaceholderText: string := "// Start coding here..."

  /** `getLanguageTemplate`: chosen by the lower-cased name; the placeholder for any other language. */
  function LanguageTemplate(language: string): (t: EditorTemplate)
    ensures var lower := ToLower(language);
      && (t == JavaScriptStarter <==> lower == "javascript")
      && (t == PythonStarter <==> lower == "python")
      && (t == JavaStarter <==> lower == "java")
      && (t == CppStarter <==> lower == "cpp")
      && (t == Placeholder <==> lower !in {"javascript", "python", "java", "cpp"})
  {
    var lower := ToLower(language);
    if lower == "javascript" then JavaScriptStarter
    else if lower == "python" then PythonStarter
    else if lower == "java" then JavaStarter
    else if lower == "cpp" then CppStarter
    else Placeholder
  }

  /**
   * Every language with a starter template saves under its own extension;
   * "C++" saves as .cpp but has no template of its own.
   */
  lemma TemplatesAndExtensions(language: string)
    ensures LanguageTemplate(language) != Placeholder ==> FileExtension(language) != "txt"
    ensures FileExtension("C++") == "cpp" && LanguageTemplate("C++") == Placeholder
  {
    assert ToLower("C++") == "c++";
  }
}
