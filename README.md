# Algorithm practice platform, modelled in Dafny

This project models the logic of an algorithm-learning web application written in TypeScript and React, and proves properties of it. The application has these parts:

- a catalogue of algorithms;
- a library page that filters and orders that catalogue;
- a code editor that runs and grades the user's code against test cases;
- a simulated code-execution service with one runner per language;
- a keyword-driven solution generator and an AI-styled code generator;
- a practice mode with a count-down timer, hints and user statistics;
- an animated visualizer for bubble sort, quick sort, heap sort and Dijkstra's shortest paths.

Each source file is one Dafny module:

| module | file | models |
|---|---|---|
| `CodeExecution` | code_execution.dfy | `app/actions/code-execution.ts`: the four runners, language routing, result extraction, grading of each case, the test loop, and scoring with feedback |
| `AlgorithmDatabase` | algorithm_database.dfy | `app/lib/algorithm-database.ts`: the four catalogue entries and the lookup, filter, search and related-entries queries |
| `AlgorithmSolver` | algorithm_solver.dfy | `app/lib/algorithm-solver.ts`: the keyword classifier and its six canned solutions |
| `AICodeGenerator` | ai_code_generator.dfy | `app/components/ai-code-generator.tsx`: the prompt classifiers, the mock code, the download extension and the blank-prompt guard |
| `AlgorithmLibrary` | algorithm_library.dfy | `app/components/algorithm-library.tsx`: filtering, ordering, favourites and clearing the filters |
| `CodeEditor` | code_editor.dfy | `app/components/code-editor.tsx`: the action guards, the visible test cases, the saved file name and the language templates |
| `PracticeMode` | practice_mode.dfy | `app/components/practice-mode.tsx`: the m:ss time display, the timer, hints, starter code, statistics and the best time |
| `BubbleSortVisualizer`, `QuickSortVisualizer`, `HeapSortVisualizer`, `DijkstraVisualizer`, `StepCursor` | bubble_sort.dfy, quick_sort.dfy, heap_sort.dfy, dijkstra.dfy, step_cursor.dfy | `app/components/algorithm-visualizer.tsx` |

Supporting modules:

- `SortSpec` (sort_spec.dfy): sortedness, segment rearrangement and comparison counts, shared by the three sorts.
- `Text` (text.dfy): the JavaScript string operations the source uses, namely `toLowerCase`, `includes`, `indexOf`, `split`, `trim`, `replace(/\s+/g, …)`, number-to-string and `padStart`.
- `Wrappers` (wrappers.dfy): `Option`.
- `Sequences` (sequences.dfy): the order-preserving subsequence relation that `Array.prototype.filter` results satisfy, shared by the catalogue, the editor and the test report.

The form follows the source:

- Pure computations are functions with lemmas.
- The visualizer's sorts work in place on an `array<int>`. Their loops are `while` loops with invariants.
- The test loop of `runTestCases`, the feedback loop of `validateAlgorithm` and Dijkstra's rounds over its distance map are methods with loops.
- State that a component updates in place is a class:
  - the visualizer's step counters: `StepCursor.Steps`;
  - the library page's filter and favourites state: `AlgorithmLibrary.LibraryState`;
  - a practice problem's `solved`, `attempts` and `bestTime`, which `runCode` mutates: `PracticeMode.PracticeProblem`.

The JavaScript runner wraps the user code in a template and passes it to `eval`. The model cannot see that code, so it is a parameter: `Environment.evalJavaScript` returns what the evaluated program printed, or that it threw. The Python, Java and C++ runners are simulators. The library calls they make (`JSON.parse`, sorting, `indexOf`, `JSON.stringify`) are parameters of the same `Environment`.

Behaviour of the code that the model keeps as written:

- An unsupported language makes `executeCode` catch its own `Error` and return a failed result with the message `Language X not supported`.
- The JavaScript runner reports success whenever evaluation did not throw. Text written to `console.error` goes into `error`, but `success` stays true.
- The validity threshold is fixed at 70 (`score >= 70`). It is not a parameter.
- Scoring always uses the four hard-coded mock sorting cases, whatever the algorithm id.
- Runners take no time limit and report no time-out.

## Model

| member | source | states |
|---|---|---|
| CodeExecution.ExecuteJavaScript | app/actions/code-execution.ts:21-98 | success exactly when evaluation did not throw; a successful run has non-empty output; a failed run has empty output and an error message |
| CodeExecution.ExecutePython | app/actions/code-execution.ts:101-156 | always succeeds without error; with no input the output is exactly the banner line; with input the output starts with the banner and the echoed input |
| CodeExecution.ExecuteJava | app/actions/code-execution.ts:159-197 | always succeeds; with no input only the banner; with input but no `bubbleSort` in the code, the banner plus the echoed input |
| CodeExecution.ExecuteCpp | app/actions/code-execution.ts:200-238 | always succeeds; with no input only the banner; with input but neither `bubbleSort` nor `BubbleSort` in the code, the banner plus the echoed input |
| CodeExecution.RunnerFor | app/actions/code-execution.ts:246-258 | no runner exactly when the lower-cased language is none of javascript, python, java, cpp, c++; the C++ runner exactly for cpp and c++ |
| CodeExecution.RunnerForIgnoresCase | app/actions/code-execution.ts:246 | routing depends only on the lower-cased language |
| CodeExecution.ExecuteCode | app/actions/code-execution.ts:241-267 | an unsupported language gives the caught "not supported" failure; JavaScript is the JavaScript runner; the simulators always succeed; any failure has empty output and an error |
| CodeExecution.ExtractActual | app/actions/code-execution.ts:283-286 | output without "Result: " is kept whole; otherwise the value holds neither the marker nor a literal backslash-n and is the text after the first marker cut at the first marker or backslash-n that follows (or at its end) |
| CodeExecution.CutIsUnique | app/actions/code-execution.ts:283-286 | at most one value is the text after the marker cut at its first stop, so the extracted value is determined by the output |
| CodeExecution.ExtractMarkedValue | app/actions/code-execution.ts:284-285 | "Result: " followed by a value free of the marker and of backslash-n extracts to exactly that value (round trip) |
| CodeExecution.GradeCase | app/actions/code-execution.ts:283-306 | the result keeps the case's input and expected; a thrown run fails with empty actual and the message or "Unknown error"; a returned run passes exactly when the trimmed extracted output equals the trimmed expected |
| CodeExecution.FailedRunPassesOnlyBlank | app/actions/code-execution.ts:283-288 | a failed run with empty output passes exactly when the expected text is blank |
| CodeExecution.MarkedExpectedPasses | app/actions/code-execution.ts:284-288 | output "Result: " + expected passes whenever expected holds neither the marker nor backslash-n |
| CodeExecution.RunCase | app/actions/code-execution.ts:276-308 | one iteration of the loop: the graded result of executing one case; what grading yields is stated by `GradeCase`, `FailedRunPassesOnlyBlank` and `MarkedExpectedPasses` |
| CodeExecution.RunAllAt | app/actions/code-execution.ts:276-308 | the reference results of a case list are, position by position, the graded run of that case |
| CodeExecution.RunTestCases | app/actions/code-execution.ts:269-311 | one result per case, in order: the k-th result is the graded run of the k-th case |
| CodeExecution.CountPassed | app/actions/code-execution.ts:335 | the passed count is at most the total, and equals it exactly when every result passed |
| CodeExecution.Failures | app/actions/code-execution.ts:356 | the failed results, in order: a subsequence of the results holding exactly the failed ones, as many as the total minus the passed |
| CodeExecution.RoundedPercentBounds | app/actions/code-execution.ts:337 | the rounded percentage is between 0 and 100: 100 when all pass, 0 when none |
| CodeExecution.RoundedPercent | app/actions/code-execution.ts:337 | `Math.round(passed / total * 100)` as half-up rounding; its range is stated by `RoundedPercentBounds`, its order by `RoundedPercentMonotonic`, its four-case values by `ScoreOfFour` |
| CodeExecution.RoundedPercentMonotonic | app/actions/code-execution.ts:337 | more passed tests never give a lower score |
| CodeExecution.ScoreOfFour | app/actions/code-execution.ts:337 | with four cases, the score is 25 per passed case |
| CodeExecution.Bands | app/actions/code-execution.ts:341-353 | the feedback opens with exactly two lines |
| CodeExecution.BandOfFourCases | app/actions/code-execution.ts:337-353 | with four cases: four passes give the perfect band, three the good one, two the partial one, fewer the poor one; the two upper bands are exactly the scores of at least 70 |
| CodeExecution.FailureSection | app/actions/code-execution.ts:358-361 | the failure header, then for the k-th failed case the line "Test k: Expected …, got …" with its expected and actual output, one line per failed case in order |
| CodeExecution.BuildFeedback | app/actions/code-execution.ts:339-362 | the two band lines, then, if any case failed, the header and one "Test k: Expected …, got …" line per failed case, in order |
| CodeExecution.ValidateAlgorithm | app/actions/code-execution.ts:313-372 | four mock cases graded; passed count and score 25 per pass; valid exactly when at least 3 of the 4 pass, i.e. when the score is at least 70; feedback is the band, then, when any case failed, the "Failed test cases:" header and one line per failure in order |
| AlgorithmDatabase.DifficultyNameInjective | app/lib/algorithm-database.ts:5 | the three difficulty names are distinct, so comparing names compares difficulties |
| AlgorithmDatabase.DatabaseIds | app/lib/algorithm-database.ts:37-2890 | the catalogue's ids are 1, 2, 3, 4, in order, and distinct |
| AlgorithmDatabase.Filter | app/lib/algorithm-database.ts:2898 | `filter` keeps, in order, exactly the entries the predicate accepts, each as often as it occurs in the input |
| AlgorithmDatabase.FilterAll | app/lib/algorithm-database.ts:2898 | a predicate accepting every entry returns the catalogue unchanged |
| AlgorithmDatabase.FindById | app/lib/algorithm-database.ts:2893 | `find` finds an entry exactly when some entry has the id, and the one found has it |
| AlgorithmDatabase.FindByIdEntry | app/lib/algorithm-database.ts:2893 | with distinct ids, finding an entry's own id returns that entry |
| AlgorithmDatabase.GetAlgorithmById | app/lib/algorithm-database.ts:2892-2894 | an entry is found exactly for ids 1 to 4, and it carries the id asked for |
| AlgorithmDatabase.GetAlgorithmByIdOfEntry | app/lib/algorithm-database.ts:2892-2894 | every catalogue entry is what lookup by its id returns |
| AlgorithmDatabase.GetAlgorithmsByCategory | app/lib/algorithm-database.ts:2896-2899 | "All" gives the whole catalogue; any other category gives exactly that category's entries, in catalogue order |
| AlgorithmDatabase.GetAlgorithmsByDifficulty | app/lib/algorithm-database.ts:2901-2904 | "All" gives the whole catalogue; any other difficulty gives exactly the entries of that name, in order |
| AlgorithmDatabase.MatchesQuery | app/lib/algorithm-database.ts:2907-2913 | name, description, a tag or the category contains the lower-cased query; stated by `EmptyQueryMatches`, `MatchesQueryIgnoresCase` and `SearchAlgorithms` |
| AlgorithmDatabase.EmptyQueryMatches | app/lib/algorithm-database.ts:2906-2915 | the empty query matches every entry |
| AlgorithmDatabase.MatchesQueryIgnoresCase | app/lib/algorithm-database.ts:2907 | a query and its lower-cased form match the same entries |
| AlgorithmDatabase.SearchAlgorithms | app/lib/algorithm-database.ts:2906-2915 | exactly the entries whose name, description, a tag or the category contains the query ignoring case, in catalogue order |
| AlgorithmDatabase.SearchEmptyQuery | app/lib/algorithm-database.ts:2906-2915 | the empty query finds the whole catalogue, in order |
| AlgorithmDatabase.KnownIds | app/lib/algorithm-database.ts:2921 | the listed ids from 1 to 4, in listed order with repeats kept: a subsequence of the list holding each such id as often as the list does, and no other id |
| AlgorithmDatabase.ResolveIds | app/lib/algorithm-database.ts:2921 | one catalogue entry per known id, in listed order and with repeats kept, the k-th carrying the k-th known id; no more entries than ids |
| AlgorithmDatabase.ResolvedAreLookups | app/lib/algorithm-database.ts:2921 | every resolved entry is exactly what lookup by its id returns |
| AlgorithmDatabase.ResolvedPosition | app/lib/algorithm-database.ts:2921 | the k-th resolved entry is the catalogue entry at the position named by the k-th known id |
| AlgorithmDatabase.EntryOfId | app/lib/algorithm-database.ts:37-1860 | a catalogue entry has an id from 1 to 4 and sits at position id - 1 |
| AlgorithmDatabase.GetRelatedAlgorithms | app/lib/algorithm-database.ts:2917-2922 | nothing for an unknown id; otherwise the resolved related ids, never the entry itself |
| AlgorithmDatabase.NoSelfRelated | app/lib/algorithm-database.ts:413 | no entry lists its own id as related |
| AlgorithmDatabase.BinarySearchHasNoRelated | app/lib/algorithm-database.ts:2883 | binary search lists ids 5, 6, 7, none of which exists, so it has no related entries |
| AlgorithmDatabase.BubbleSortRelated | app/lib/algorithm-database.ts:413 | bubble sort's related entries are quick sort, merge sort and binary search, in that order |
| AlgorithmSolver.TemplateKey | app/lib/algorithm-solver.ts:136 | `solutions[language] \|\| solutions.javascript`: the requested language exactly when the template has it |
| AlgorithmSolver.SortingSolution | app/lib/algorithm-solver.ts:46-144 | the quick-sort template in the requested language or javascript; its complexities and explanation are stated by `SolutionComplexities`, its choice by `SolveAlgorithm` |
| AlgorithmSolver.SearchingSolution | app/lib/algorithm-solver.ts:146-202 | the binary-search template; complexities by `SolutionComplexities`, choice by `SolveAlgorithm` and `SearchBeatsGraph` |
| AlgorithmSolver.ArraySolution | app/lib/algorithm-solver.ts:204-261 | Two Sum exactly when the text has "two sum" or "pair", otherwise the default; stated by `SolveAlgorithm` |
| AlgorithmSolver.StringSolution | app/lib/algorithm-solver.ts:263-321 | the palindrome template exactly when the text has "palindrome", otherwise the default; stated by `SolveAlgorithm` |
| AlgorithmSolver.GraphSolution | app/lib/algorithm-solver.ts:323-426 | Dijkstra exactly when the text has "shortest path" or "dijkstra", otherwise the default; stated by `SolveAlgorithm` and `DijkstraNeedsGraphWord` |
| AlgorithmSolver.DefaultSolution | app/lib/algorithm-solver.ts:428-491 | the generic template embedding the problem text; stated by `SolveAlgorithm` and `SolutionComplexities` |
| AlgorithmSolver.SolveAlgorithm | app/lib/algorithm-solver.ts:10-44 | each template is chosen exactly when its keyword group is the first to match the lower-cased text and its own keywords occur; the generic template embeds the original text or the lower-cased one |
| AlgorithmSolver.SolutionComplexities | app/lib/algorithm-solver.ts:137-140 | each template carries its fixed time and space complexity and explanation |
| AlgorithmSolver.SearchBeatsGraph | app/lib/algorithm-solver.ts:23-25 | "find" beats the graph words: "find shortest path" without a sorting word gets binary search |
| AlgorithmSolver.DijkstraNeedsGraphWord | app/lib/algorithm-solver.ts:38-43 | "dijkstra" alone matches no group, so the generic solution answers |
| AlgorithmSolver.JavaFallsBack | app/lib/algorithm-solver.ts:46-143 | for Java only the sorting template has a Java version; every other template falls back to JavaScript |
| AICodeGenerator.DominantDataStructure | app/components/ai-code-generator.tsx:201-216 | each answer exactly when its keyword group is the first that the lower-cased prompt mentions; the optimized-approaches fallback exactly when it mentions none |
| AICodeGenerator.TimeComplexity | app/components/ai-code-generator.tsx:218-226 | "O(n log n)" exactly when the prompt mentions sort; "O(log n)" exactly for binary search without sort; the quadratic answer and "O(V + E)" exactly under their rule order; "O(n)" exactly when no earlier rule applies |
| AICodeGenerator.SpaceComplexity | app/components/ai-code-generator.tsx:228-235 | "O(1)" exactly for "in-place" or "constant"; the quadratic answer exactly for matrix or 2d with no earlier rule |
| AICodeGenerator.ClassifiersIgnoreCase | app/components/ai-code-generator.tsx:202 | the three classifiers give the same answer for a prompt and its lower-cased form |
| AICodeGenerator.Excerpt | app/components/ai-code-generator.tsx:78 | `slice(0, 50)`: a prefix of at most 50 characters, the whole prompt when it is short |
| AICodeGenerator.GenerateMockCode | app/components/ai-code-generator.tsx:75-199 | the template's language is the requested one exactly when it is javascript, python or java, else javascript; the header embeds the excerpt and difficulty |
| AICodeGenerator.DownloadExtension | app/components/ai-code-generator.tsx:245 | js exactly for javascript, py exactly for python, java otherwise |
| AICodeGenerator.GenerateCode | app/components/ai-code-generator.tsx:31-57 | nothing exactly when the prompt is blank; otherwise the mock code and the three classifier answers for that prompt |
| AlgorithmLibrary.Listed | app/components/algorithm-library.tsx:51-62 | the filter predicate: the query matches ignoring case and each selector is "All" or agrees; stated through `FilterAlgorithms` and `ClearedFiltersListEverything` |
| AlgorithmLibrary.FilterAlgorithms | app/components/algorithm-library.tsx:50-63 | the listed entries, in catalogue order and each as often as in the catalogue: those matching the query and each selector that is not "All" |
| AlgorithmLibrary.ClearedFiltersListEverything | app/components/algorithm-library.tsx:50-63 | an empty query with every selector at "All" lists the whole catalogue, in order |
| AlgorithmLibrary.DifficultyRank | app/components/algorithm-library.tsx:70-71 | Easy ranks 1, Hard ranks 3, Medium between |
| AlgorithmLibrary.Rank | app/components/algorithm-library.tsx:66-84 | the comparator's key: difficulty rank for "difficulty", otherwise descending views; its orders are stated by `SortAlgorithmsSorted`, `DifficultyOrder` and `ViewsOrder` |
| AlgorithmLibrary.Insert | app/components/algorithm-library.tsx:66-84 | inserting adds exactly one occurrence of the entry |
| AlgorithmLibrary.InsertSorted | app/components/algorithm-library.tsx:66-84 | inserting into a rank-sorted list keeps it rank-sorted |
| AlgorithmLibrary.SortAlgorithms | app/components/algorithm-library.tsx:66-84 | the ordering is a permutation of its input |
| AlgorithmLibrary.SortAlgorithmsSorted | app/components/algorithm-library.tsx:66-84 | the ordering is rank-sorted |
| AlgorithmLibrary.SortAlgorithmsKeepsSorted | app/components/algorithm-library.tsx:66-84 | an already rank-sorted list is left exactly as it is (stable, idempotent) |
| AlgorithmLibrary.FilteredAlgorithms | app/components/algorithm-library.tsx:49-86 | a permutation of the filtered entries, containing exactly the listed ones, rank-sorted by the selected key |
| AlgorithmLibrary.DifficultyOrder | app/components/algorithm-library.tsx:69-71 | sorted by difficulty, no Easy entry follows a Medium or Hard one and no Hard entry precedes an easier one |
| AlgorithmLibrary.ViewsOrder | app/components/algorithm-library.tsx:74-79 | sorted by views, or by the default popularity, views never increase down the list |
| AlgorithmLibrary.Toggle | app/components/algorithm-library.tsx:112-120 | the id's membership flips; every other id keeps its membership |
| AlgorithmLibrary.ToggleTwice | app/components/algorithm-library.tsx:112-120 | toggling twice restores the favourites |
| AlgorithmLibrary.ShowClearButton | app/components/algorithm-library.tsx:400-403 | hidden exactly when the query is empty and every selector is "All" |
| AlgorithmLibrary.LibraryState.constructor | app/components/algorithm-library.tsx:37-45 | the initial state: empty query, selectors "All", popularity order, no favourites, no Clear button |
| AlgorithmLibrary.LibraryState.Listing | app/components/algorithm-library.tsx:49-86 | the listing contains exactly the entries the current state lists |
| AlgorithmLibrary.LibraryState.ToggleFavorite | app/components/algorithm-library.tsx:112-120 | the favourites are toggled at the id; the filters are unchanged |
| AlgorithmLibrary.LibraryState.ClearFilters | app/components/algorithm-library.tsx:122-128 | query and selectors reset, popularity order, favourites kept; the listing is then a permutation of the whole catalogue |
| CodeEditor.SelectedAlgorithm | app/components/code-editor.tsx:61 | an algorithm is selected exactly for a present id from 1 to 4, and it carries that id; an absent or zero id selects nothing |
| CodeEditor.MayProceed | app/components/code-editor.tsx:73-81 | an action proceeds exactly when the trimmed code is non-empty and, except for executing, an algorithm is selected |
| CodeEditor.BlankCodeRefused | app/components/code-editor.tsx:114-121 | all-white-space code is refused by every action |
| CodeEditor.VisibleTestCases | app/components/code-editor.tsx:127 | the non-hidden cases, in their order, each as often as it occurs among the cases |
| CodeEditor.NoHiddenSendsAll | app/components/code-editor.tsx:127 | with no hidden case every case is sent, unchanged |
| CodeEditor.RunnerCases | app/components/code-editor.tsx:127-128 | one runner case per stored case, with its input and expected text |
| CodeEditor.RunVisibleTests | app/components/code-editor.tsx:125-134 | the results are the graded runs of the visible cases, in order, and the passed count counts them |
| CodeEditor.FailedCount | app/components/code-editor.tsx:647 | total minus passed; `FailedCountCountsFailures` states that it is the number of failed results |
| CodeEditor.FailedCountCountsFailures | app/components/code-editor.tsx:643-647 | for a report built by validation, the "failed" figure is the number of failed results, the two figures add up to the total, and it is 0 exactly when all passed |
| CodeEditor.FileExtension | app/components/code-editor.tsx:217-237 | the extension of the lower-cased language from the known table, "txt" for any other |
| CodeEditor.FileExtensionIgnoresCase | app/components/code-editor.tsx:218 | the extension ignores the case of the language |
| CodeEditor.BaseName | app/components/code-editor.tsx:205 | a non-empty name without white space; "algorithm" when there is no algorithm or its name is empty; otherwise the name with each white-space run replaced by "_", so an already clean name is kept |
| CodeEditor.SaveFilename | app/components/code-editor.tsx:205 | the base name, a ".", then the extension |
| CodeEditor.BubbleSortBaseName | app/components/code-editor.tsx:205 | bubble sort's base name is "Bubble_Sort" |
| CodeEditor.SanitizedBubbleSort | app/components/code-editor.tsx:205 | "Bubble Sort" with its white-space run replaced by "_" is "Bubble_Sort" |
| CodeEditor.JavaScriptExtension | app/components/code-editor.tsx:217-237 | the extension for "javascript" is "js" |
| CodeEditor.BubbleSortFilename | app/components/code-editor.tsx:205 | saving bubble sort's JavaScript code offers "Bubble_Sort" + "." + "js", i.e. "Bubble_Sort.js" |
| CodeEditor.SanitizedName | app/components/code-editor.tsx:205 | replacing white-space runs by "_" leaves no white space, keeps a name non-empty exactly when it was, and leaves a clean name unchanged |
| CodeEditor.LanguageTemplate | app/components/code-editor.tsx:239-298 | each starter template exactly for its lower-cased language; the placeholder for any other |
| CodeEditor.TemplatesAndExtensions | app/components/code-editor.tsx:217-298 | every language with a template has a known extension; "C++" saves as .cpp but gets the placeholder |
| PracticeMode.SecondsField | app/components/practice-mode.tsx:442 | two digits whose value is the seconds |
| PracticeMode.FormatTime | app/components/practice-mode.tsx:439-443 | "m:ss": digits, a ":" three from the end, two digits below 60, and minutes times 60 plus seconds is the input; the minutes are printed without a leading zero |
| PracticeMode.FormatTimeMinutes | app/components/practice-mode.tsx:439-443 | the minutes field is exactly the decimal rendering of the whole minutes, as `${mins}` prints it |
| PracticeMode.FormatTimeRoundTrip | app/components/practice-mode.tsx:439-443 | reading the display back gives the seconds it shows |
| PracticeMode.FormatTimeInjective | app/components/practice-mode.tsx:439-443 | different times show differently |
| PracticeMode.StartPractice | app/components/practice-mode.tsx:513-518 | the timer runs, from the problem's time limit |
| PracticeMode.Tick | app/components/practice-mode.tsx:417-428 | a running timer above 0 loses exactly one second; at 0 it stops; any other timer is unchanged; a stopped timer never restarts; time stays non-negative |
| PracticeMode.CountsDown | app/components/practice-mode.tsx:417-428 | k ticks of a running clock at n take it to n - k, for k up to n |
| PracticeMode.RunsOut | app/components/practice-mode.tsx:417-428 | started at n, the clock is stopped at 0 after n + 1 ticks and stays there |
| PracticeMode.TicksSplit | app/components/practice-mode.tsx:417-428 | k + m ticks are k ticks followed by m |
| PracticeMode.NextHint | app/components/practice-mode.tsx:597-601 | the hint moves one on exactly while another remains, and stays in range |
| PracticeMode.HintsStopAtLast | app/components/practice-mode.tsx:597-601 | k presses move k hints on but never past the last one |
| PracticeMode.FormatTestCases | app/components/practice-mode.tsx:525-529 | same cases in order, with input and expected kept and a missing `hidden` read as false |
| PracticeMode.InitialCode | app/components/practice-mode.tsx:473-511 | the template of the language, javascript for any other; the header embeds title, difficulty and a time display that is `FormatTime` of the time limit and reads back as it |
| PracticeMode.AcceptedStats | app/components/practice-mode.tsx:550-558 | a solve counted only for an unsolved problem; one more attempt and streak; the best streak is the larger of the old best and the new streak; points and xp rise by the problem's points |
| PracticeMode.AcceptedKeepsConsistent | app/components/practice-mode.tsx:404-415 | the initial statistics are consistent, and each accepted submission keeps solves at most attempts, best streak at least the current streak, and points equal to xp |
| PracticeMode.SolvedCountsOnce | app/components/practice-mode.tsx:550-562 | solving the same problem twice counts one solve, two attempts and both awards |
| PracticeMode.NewBestTime | app/components/practice-mode.tsx:565-567 | an unset best time becomes the time left; otherwise the larger of the two |
| PracticeMode.BestTimeIsLargest | app/components/practice-mode.tsx:565-567 | after a series of accepted submissions the best time is the largest time left in the series, or the earlier best |
| PracticeMode.PracticeProblem.constructor | app/components/practice-mode.tsx:33-335 | a problem's progress as listed |
| PracticeMode.PracticeProblem.RecordResult | app/components/practice-mode.tsx:547-567 | an accepted submission updates the statistics, reading `solved` before setting it; the problem is then solved, with one more attempt and the new best time; anything else changes nothing |
| StepCursor.Forward | app/components/algorithm-visualizer.tsx:464-469 | one step on while below the total, staying within 0..total |
| StepCursor.Backward | app/components/algorithm-visualizer.tsx:471-476 | one step back while above 0, never below 0 |
| StepCursor.BackwardUndoesForward | app/components/algorithm-visualizer.tsx:464-476 | a step back undoes a step forward taken below the total |
| StepCursor.ForwardUndoesBackward | app/components/algorithm-visualizer.tsx:464-476 | a step forward undoes a step back taken above 0 |
| StepCursor.ForwardRepeatedly | app/components/algorithm-visualizer.tsx:464-469 | k steps forward reach current + k, capped at the total |
| StepCursor.Steps.constructor | app/components/algorithm-visualizer.tsx:378-384 | both counters start at 0 |
| StepCursor.Steps.Reset | app/components/algorithm-visualizer.tsx:378-384 | both counters return to 0 |
| StepCursor.Steps.StepForward | app/components/algorithm-visualizer.tsx:464-469 | the current step advances by one while below the total; the total is kept; the counters stay consistent |
| StepCursor.Steps.StepBackward | app/components/algorithm-visualizer.tsx:471-476 | the current step goes back by one while above 0; the total is kept; the counters stay consistent |
| SortSpec.PairsClosedForm | app/components/algorithm-visualizer.tsx:483-505 | the number of comparisons of all passes is n(n-1)/2 |
| SortSpec.Swap | app/components/algorithm-visualizer.tsx:500 | the destructuring swap exchanges the two cells and rearranges the segment holding them |
| BubbleSortVisualizer.BubblePass | app/components/algorithm-visualizer.tsx:485-510 | one pass makes limit - 1 comparisons, carries the segment's maximum to its end and only rearranges the segment |
| BubbleSortVisualizer.BubbleSort | app/components/algorithm-visualizer.tsx:479-520 | the array ends sorted and a permutation of the original; n(n-1)/2 comparisons; every index is marked sorted once |
| BubbleSortVisualizer.PassSettlesOneMore | app/components/algorithm-visualizer.tsx:508 | after a pass, one more position at the end holds its final value |
| QuickSortVisualizer.Partition | app/components/algorithm-visualizer.tsx:535-578 | the pivot lands at the returned index, smaller values before it, the rest after, the segment only rearranged, high - low comparisons |
| QuickSortVisualizer.QuickSort | app/components/algorithm-visualizer.tsx:527-533 | the segment is sorted and a permutation of its old contents, in at most n(n-1)/2 comparisons |
| QuickSortVisualizer.CombineSortedSides | app/components/algorithm-visualizer.tsx:529-531 | both sides sorted around a placed pivot give a sorted segment |
| QuickSortVisualizer.ComparisonBound | app/components/algorithm-visualizer.tsx:527-533 | the comparisons of a partition plus those of its two sides stay within n(n-1)/2 |
| QuickSortVisualizer.QuickSortVisualization | app/components/algorithm-visualizer.tsx:522-588 | the array ends sorted and a permutation of the original; at most n(n-1)/2 steps; every index marked sorted |
| HeapSortVisualizer.HeapRootMax | app/components/algorithm-visualizer.tsx:703-739 | in a max-heap the root holds the largest value |
| HeapSortVisualizer.Heapify | app/components/algorithm-visualizer.tsx:703-739 | sifting down restores the heap property and only rearranges the cells from i to n |
| HeapSortVisualizer.BuildHeap | app/components/algorithm-visualizer.tsx:667-670 | the array becomes a max-heap with the same elements |
| HeapSortVisualizer.ExtractRoot | app/components/algorithm-visualizer.tsx:673-692 | moving the root to position i and sifting keeps a heap below i and a sorted suffix from i holding the largest values |
| HeapSortVisualizer.HeapSort | app/components/algorithm-visualizer.tsx:661-701 | the array ends sorted and a permutation of the original; n - 1 extraction steps; every index marked sorted once |
| DijkstraVisualizer.Plus | app/components/algorithm-visualizer.tsx:634 | adding a weight to Infinity stays Infinity; to a finite distance adds the weight |
| DijkstraVisualizer.GraphIsWellFormed | app/components/algorithm-visualizer.tsx:336-358 | the built-in graph has non-negative weights, its edges join listed nodes and the source is a node |
| DijkstraVisualizer.InitialDistances | app/components/algorithm-visualizer.tsx:598-600 | every node is mapped, the source to 0 and every other node to Infinity |
| DijkstraVisualizer.SelectCurrent | app/components/algorithm-visualizer.tsx:610-621 | no node exactly when every unvisited node is at Infinity; otherwise the first unvisited node of least distance |
| DijkstraVisualizer.RelaxFrom | app/components/algorithm-visualizer.tsx:631-645 | each out-edge of the current node lowers its target to at most the current distance plus the weight; the node set stays and no distance grows; with non-negative weights a distance that changes is the current distance plus the weight of an edge from the current node to it |
| DijkstraVisualizer.RoundKeepsProgress | app/components/algorithm-visualizer.tsx:607-649 | visiting the nearest unvisited node and relaxing its edges keeps the loop invariant |
| DijkstraVisualizer.VisitNearest | app/components/algorithm-visualizer.tsx:610-645 | a round visits one new node, keeping the invariant, or stops when every unvisited node is at Infinity |
| DijkstraVisualizer.Dijkstra | app/components/algorithm-visualizer.tsx:591-658 | every node mapped; visited exactly the nodes at a finite distance; one round per visited node; with non-negative weights the distances are non-negative, every edge is relaxed and the source stays at 0 |
| DijkstraVisualizer.PathBound | app/components/algorithm-visualizer.tsx:631-645 | with every edge relaxed, the distance of a path's end is at most the start's distance plus the path's weight |
| DijkstraVisualizer.ReachableIsVisited | app/components/algorithm-visualizer.tsx:591-658 | at the end every node reachable from the source is visited, at a distance no larger than the weight of any path to it |
| DijkstraVisualizer.DijkstraVisualization | app/components/algorithm-visualizer.tsx:591-658 | on the built-in graph: every node mapped, the source at 0, visited exactly the finite ones, every edge relaxed |
| Text.ToLower | app/lib/algorithm-solver.ts:15 | same length; each character lower-cased, no upper-case letter left |
| Text.LowerIdempotent | app/lib/algorithm-database.ts:2907 | lower-casing twice is lower-casing once |
| Text.IndexOf | app/actions/code-execution.ts:285 | found exactly when the text contains the part, at its first occurrence |
| Text.Split | app/actions/code-execution.ts:285 | `split` always gives at least one piece |
| Text.SplitPiecesFree | app/actions/code-execution.ts:285 | no piece contains the separator |
| Text.SplitJoin | app/actions/code-execution.ts:285 | joining the pieces with the separator gives back the text |
| Text.SplitHasSecond | app/actions/code-execution.ts:284-285 | there is a piece after the first exactly when the text contains the separator |
| Text.SplitFirst | app/actions/code-execution.ts:285 | the first piece is the text before the first separator, or the whole text |
| Text.TrimStart | app/actions/code-execution.ts:288 | a suffix of the text, with only white space removed before it, starting with a non-space character |
| Text.TrimEnd | app/actions/code-execution.ts:288 | a prefix of the text, with only white space removed after it, ending with a non-space character |
| Text.Trim | app/actions/code-execution.ts:288 | a slice of the text that begins and ends with a non-space character, with only white space before and after it |
| Text.TrimIdempotent | app/actions/code-execution.ts:288 | trimming twice is trimming once |
| Text.TrimEmptyIffBlank | app/components/code-editor.tsx:74 | the trimmed text is empty exactly when the text is all white space |
| Text.ReplaceWhitespaceRuns | app/components/code-editor.tsx:205 | `replace(/\s+/g, r)`; stated by `ReplaceWhitespaceRunsRun` (each run becomes one `r`), `ReplaceWhitespaceRunsClean`, `ReplaceWhitespaceRunsIdentity` and `ReplaceWhitespaceRunsEmpty` |
| Text.ReplaceWhitespaceRunsClean | app/components/code-editor.tsx:205 | replacing each white-space run by a clean text leaves no white space |
| Text.ReplaceWhitespaceRunsIdentity | app/components/code-editor.tsx:205 | a text without white space is unchanged |
| Text.TrimStartRun | app/components/code-editor.tsx:205 | dropping a leading white-space run leaves exactly the text after it when that text does not start with white space |
| Text.ReplaceWhitespaceRunsRun | app/components/code-editor.tsx:205 | a white-space run after a clean prefix becomes one copy of the replacement, and the rest is processed the same way |
| Text.ReplaceWhitespaceRunsEmpty | app/components/code-editor.tsx:205 | the result is empty exactly when the text is |
| Text.NatToString | app/components/practice-mode.tsx:442 | decimal digits without a leading zero |
| Text.NatToStringRoundTrip | app/components/practice-mode.tsx:442 | the digits read back as the number |
| Text.NatToStringInjective | app/components/practice-mode.tsx:442 | different numbers print differently |
| Text.PadStart | app/components/practice-mode.tsx:442 | `padStart`: unchanged when wide enough, else padded on the left to the width and ending with the text |

## Left out

- Timing, memory and randomness are not modelled: `executionTime`, the simulated `memoryUsage` and runtimes, `Math.random` and `Date`.
- The visualizer's random array generation is not modelled.
- I/O is not modelled: toasts, downloads through `Blob` and anchors, clipboard, sound, the DOM, React rendering and animation delays (`setTimeout`), pausing, and the step-description strings.
- The code the JavaScript runner evaluates is not visible to the model. The runner is an `Environment` parameter, and so are the library calls (`JSON.parse`, `sort`, `indexOf`, `JSON.stringify`) that the Python, Java and C++ simulators make.
- Text templates (the solver's solutions, the generator's mock code, the practice starter code, the editor templates) are modelled by which template is chosen and the values substituted into it, not by their full text.
- The simulated progress messages of the code generator are left out, as are its 1.5-second delay and the solver's one-second delay.
- AlgorithmLibrary.FilteredAlgorithms: the orderings by "name" (`localeCompare`), "rating" (floating-point ratings) and "date" (`Date` parsing) are outside the model, which is why it requires `ModelledSort`.
- AlgorithmLibrary.SortAlgorithms: JavaScript's `Array.prototype.sort` is stable. The model uses a stable insertion sort, but only states stability for an input that is already in order, through `SortAlgorithmsKeepsSorted`.
- CodeExecution.ExecuteJavaScript: the wrapper built at app/actions/code-execution.ts:25-78 ends with a top-level `return`, which is a syntax error in code given to `eval`. As written, every call therefore takes the `catch` branch: failure, empty output and the syntax error's message. The model keeps the success branch the wrapper was written for, through the `Environment.evalJavaScript` parameter, so it allows outcomes the code as written never reaches.
- AICodeGenerator.Excerpt: `prompt.slice(0, 50)` counts UTF-16 code units, while the model counts Dafny characters (Unicode scalar values). For a prompt with characters outside the Basic Multilingual Plane, such as emoji, JavaScript keeps fewer characters than the model and may split a surrogate pair. The two agree on prompts whose characters all lie in the Basic Multilingual Plane.
- Text.ToLower: lower-cases ASCII letters only. JavaScript's full Unicode case mapping is not modelled.
- PracticeMode.FormatTime: takes a `nat`. The output for negative seconds, which JavaScript would print with a minus sign, is not modelled.
- PracticeMode.PracticeProblem.RecordResult: the statistics updater reads `solved` as the code reads it, before `selectedProblem.solved = true`. React may run the deferred updater after that assignment, in which case the solve is not counted. The model does not capture that scheduling.
- Practice mode calls `executeCode(formData)` with a single `FormData` argument, but the server action takes `(code, language, input)`. The model leaves out this call and takes the result (`allPassed`) as a parameter.
- The error path of `runCode` (the `catch` that shows an "Execution failed" row) is not modelled; it changes only the display.
- The practice-mode effect that resets the timer, code and hints when the problem or language changes (practice-mode.tsx:430-437) is not modelled separately. Its effect on the timer is `StartPractice` without the `active` flag.
- DijkstraVisualizer.RelaxFrom: the edge that set a changed distance is named only for non-negative weights. With a negative self-loop the current node's own distance can drop during the loop, and later edges then use the lowered value.
- DijkstraVisualizer.Dijkstra: the model proves that every edge is relaxed, that the source stays at 0 and that reachable nodes get a finite distance bounded by every path. The converse, that each finite distance is the weight of some path, is not stated, and the concrete distances on the built-in graph are not derived.
- JavaScript object-key quirks, such as a language named "constructor" looking up an inherited property of `templates`, are not modelled. The model treats template and solution maps as plain maps.
- Merge sort, BFS and DFS visualizations are placeholders in the source and are not modelled.
- Scoring of `validateAlgorithm` ignores the algorithm id, as the code does. `Math.round` is modelled as half-up rounding of a non-negative ratio, which matches it for the ratios that occur.
