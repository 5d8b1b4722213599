/**
 * `solveAlgorithm` of app/lib/algorithm-solver.ts: a keyword classifier over
 * the lower-cased problem text that picks one of six canned solutions, each
 * with fixed complexities.  The code templates themselves are displayed text:
 * a solution's code is modelled by which template was chosen, under which
 * language key, and the problem text it embeds.  The simulated one-second
 * delay is left out.
 */
module AlgorithmSolver {
  import opened Text

  /** The canned solutions. */
  datatype Template = QuickSortTemplate | BinarySearchTemplate | TwoSumTemplate | PalindromeTemplate
                    | DijkstraTemplate | GenericTemplate

  /** The code returned: the template, the language key it was taken from, and the problem text it embeds. */
  datatype Code = Code(template: Template, languageKey: string, embedded: string)

  /** The explanation: fixed per template, except the generic one, which embeds the problem and language. */
  datatype Explanation = FixedExplanation(template: Template) | GenericExplanation(problem: string, language: string)

  /** `AlgorithmSolution`. */
  datatype Solution = Solution(code: Code, time: string, space: string, explanation: Explanation)

  /** The language keys each template defines. */
  function LanguagesOf(t: Template): set<string> {
    if t == QuickSortTemplate then {"javascript", "python", "java", "cpp"} else {"javascript", "python"}
  }

  /** `solutions[language] || solutions.javascript`: the requested language if the template has it. */
  function TemplateKey(t: Template, language: string): (key: string)
    ensures key in LanguagesOf(t)
    ensures key == language <==> language in LanguagesOf(t)
  {
    if language in LanguagesOf(t) then language else "javascript"
  }

  // The keyword groups, tested in this order on the lower-cased problem.

  predicate AboutSorting(lower: string) {
    Contains(lower, "sort") || Contains(lower, "arrange")
  }

  predicate AboutSearching(lower: string) {
    Contains(lower, "search") || Contains(lower, "find")
  }

  predicate AboutArrays(lower: string) {
    Contains(lower, "array") || Contains(lower, "list")
  }

  predicate AboutStrings(lower: string) {
    Contains(lower, "string") || Contains(lower, "palindrome")
  }

  predicate AboutGraphs(lower: string) {
    Contains(lower, "path") || Contains(lower, "graph") || Contains(lower, "node")
  }

  /** No keyword group matches. */
  predicate NoTopic(lower: string) {
    !AboutSorting(lower) && !AboutSearching(lower) && !AboutArrays(lower) && !AboutStrings(lower) && !AboutGraphs(lower)
  }

  /** `generateDefaultSolution`: the generic template embedding `problem`. */
  function DefaultSolution(language: string, problem: string): Solution {
    Solution(Code(GenericTemplate, TemplateKey(GenericTemplate, language), problem), "O(n)", "O(1)",
             GenericExplanation(problem, language))
  }

  /** `generateSortingSolution`. */
  function SortingSolution(language: string): Solution {
    Solution(Code(QuickSortTemplate, TemplateKey(QuickSortTemplate, language), ""), "O(n log n)", "O(log n)",
             FixedExplanation(QuickSortTemplate))
  }

  /** `generateSearchingSolution`. */
  function SearchingSolution(language: string): Solution {
    Solution(Code(BinarySearchTemplate, TemplateKey(BinarySearchTemplate, language), ""), "O(log n)", "O(1)",
             FixedExplanation(BinarySearchTemplate))
  }

  /** `generateArraySolution`: Two Sum only for "two sum" or "pair", else the default on the lower-cased text. */
  function ArraySolution(language: string, problem: string): Solution {
    if Contains(problem, "two sum") || Contains(problem, "pair") then
      Solution(Code(TwoSumTemplate, TemplateKey(TwoSumTemplate, language), ""), "O(n)", "O(n)",
               FixedExplanation(TwoSumTemplate))
    else
      DefaultSolution(language, problem)
  }

  /** `generateStringSolution`: the palindrome checker only for "palindrome". */
  function StringSolution(language: string, problem: string): Solution {
    if Contains(problem, "palindrome") then
      Solution(Code(PalindromeTemplate, TemplateKey(PalindromeTemplate, language), ""), "O(n)", "O(1)",
               FixedExplanation(PalindromeTemplate))
    else
      DefaultSolution(language, problem)
  }

  /** `generateGraphSolution`: Dijkstra only for "shortest path" or "dijkstra". */
  function GraphSolution(language: string, problem: string): Solution {
    if Contains(problem, "shortest path") || Contains(problem, "dijkstra") then
      Solution(Code(DijkstraTemplate, TemplateKey(DijkstraTemplate, language), ""), "O((V + E) log V)", "O(V)",
               FixedExplanation(DijkstraTemplate))
    else
      DefaultSolution(language, problem)
  }

  /**
   * `solveAlgorithm(problem, language)`.  Each template is chosen exactly
   * when its keyword group is the first to match and its own keywords are
   * present; the generic template embeds the original text when no group
   * matches and the lower-cased text when a group fell back to it.
   */
  function SolveAlgorithm(problem: string, language: string): (r: Solution)
    ensures var lower := ToLower(problem);
      && (r.code.template == QuickSortTemplate <==> AboutSorting(lower))
      && (r.code.template == BinarySearchTemplate <==> !AboutSorting(lower) && AboutSearching(lower))
      && (r.code.template == TwoSumTemplate <==>
            !AboutSorting(lower) && !AboutSearching(lower) && AboutArrays(lower)
            && (Contains(lower, "two sum") || Contains(lower, "pair")))
      && (r.code.template == PalindromeTemplate <==>
            !AboutSorting(lower) && !AboutSearching(lower) && !AboutArrays(lower) && Contains(lower, "palindrome"))
      && (r.code.template == DijkstraTemplate <==>
            !AboutSorting(lower) && !AboutSearching(lower) && !AboutArrays(lower) && !AboutStrings(lower)
            && AboutGraphs(lower) && (Contains(lower, "shortest path") || Contains(lower, "dijkstra")))
    ensures r.code.template == GenericTemplate ==> r.code.embedded == (if NoTopic(ToLower(problem)) then problem else ToLower(problem))
    ensures r.code.languageKey in LanguagesOf(r.code.template)
    ensures r.code.languageKey == language <==> language in LanguagesOf(r.code.template)
  {
    var lower := ToLower(problem);
    if AboutSorting(lower) then SortingSolution(language)
    else if AboutSearching(lower) then SearchingSolution(language)
    else if AboutArrays(lower) then ArraySolution(language, lower)
    else if AboutStrings(lower) then StringSolution(language, lower)
    else if AboutGraphs(lower) then GraphSolution(language, lower)
    else DefaultSolution(language, problem)
  }

  /** The complexities are fixed by the chosen template. */
  lemma SolutionComplexities(problem: string, language: string)
    ensures var r := SolveAlgorithm(problem, language);
      && (r.code.template == QuickSortTemplate ==> r.time == "O(n log n)" && r.space == "O(log n)")
      && (r.code.template == BinarySearchTemplate ==> r.time == "O(log n)" && r.space == "O(1)")
      && (r.code.template == TwoSumTemplate ==> r.time == "O(n)" && r.space == "O(n)")
      && (r.code.template == PalindromeTemplate ==> r.time == "O(n)" && r.space == "O(1)")
      && (r.code.template == DijkstraTemplate ==> r.time == "O((V + E) log V)" && r.space == "O(V)")
      && (r.code.template == GenericTemplate ==> r.time == "O(n)" && r.space == "O(1)")
    ensures var r := SolveAlgorithm(problem, language);
      r.explanation == if r.code.template == GenericTemplate then GenericExplanation(r.code.embedded, language)
                       else FixedExplanation(r.code.template)
  {
  }

  /**
   * A search word beats the graph words: a text with "find" and "path" but
   * no sorting word gets binary search, as "find shortest path" does.
   */
  lemma SearchBeatsGraph(problem: string, language: string)
    requires Contains(ToLower(problem), "find") && Contains(ToLower(problem), "shortest path")
    requires !AboutSorting(ToLower(problem))
    ensures SolveAlgorithm(problem, language).code.template == BinarySearchTemplate
  {
  }

  /** "dijkstra" alone is not a graph word: without one, the generic template answers. */
  lemma DijkstraNeedsGraphWord(problem: string, language: string)
    requires NoTopic(ToLower(problem)) && Contains(ToLower(problem), "dijkstra")
    ensures SolveAlgorithm(problem, language).code == Code(GenericTemplate, TemplateKey(GenericTemplate, language), problem)
  {
  }

  /** Java has a template only for sorting: every other template falls back to JavaScript. */
  lemma JavaFallsBack(problem: string)
    ensures var r := SolveAlgorithm(problem, "java");
      r.code.languageKey == if r.code.template == QuickSortTemplate then "java" else "javascript"
  {
  }
}
