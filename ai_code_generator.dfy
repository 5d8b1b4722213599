/**
 * The prompt analysis of app/components/ai-code-generator.tsx: three keyword
 * classifiers over the lower-cased prompt (dominant data structure, time and
 * space complexity), the choice of a mock code template, the download file
 * extension and the guard that ignores a blank prompt.  The templates are
 * displayed text and are modelled by which one is chosen and what it embeds;
 * the simulated progress messages and delays are left out.
 */
module AICodeGenerator {
  import opened Wrappers
  import opened Text

  const ArraysAndComparisons: string := "arrays and comparison operations"
  const GraphStructures: string := "graph data structures and traversal algorithms"
  const HashTables: string := "hash tables and mapping structures"
  const SpecializedStructures: string := "specialized data structures"
  const StringProcessing: string := "string processing algorithms"
  const DynamicProgramming: string := "dynamic programming techniques"
  const OptimizedApproaches: string := "optimized algorithmic approaches"

  /** "O(n²)" as the source file stores it: the UTF-8 bytes of "²" read back as Latin-1, "Â²". */
  const QuadraticMojibake: string := "O(n\U{00C2}\U{00B2})"

  predicate MentionsOrdering(lower: string) {
    Contains(lower, "sort") || Contains(lower, "order") || Contains(lower, "array") || Contains(lower, "list")
  }

  predicate MentionsGraphs(lower: string) {
    Contains(lower, "graph") || Contains(lower, "tree") || Contains(lower, "node")
  }

  predicate MentionsHashing(lower: string) {
    Contains(lower, "hash") || Contains(lower, "map") || Contains(lower, "dictionary")
  }

  predicate MentionsContainers(lower: string) {
    Contains(lower, "stack") || Contains(lower, "queue") || Contains(lower, "heap")
  }

  predicate MentionsText(lower: string) {
    Contains(lower, "string") || Contains(lower, "pattern") || Contains(lower, "text")
  }

  predicate MentionsDynamic(lower: string) {
    Contains(lower, "dynamic") || Contains(lower, "memo") || Contains(lower, "dp")
  }

  /**
   * `getDominantDataStructure`: the answer of the first keyword group that
   * the lower-cased prompt mentions; the sorting and the array groups share
   * one answer.
   */
  function DominantDataStructure(prompt: string): (r: string)
    ensures var lower := ToLower(prompt);
      && (r == ArraysAndComparisons <==> MentionsOrdering(lower))
      && (r == GraphStructures <==> !MentionsOrdering(lower) && MentionsGraphs(lower))
      && (r == HashTables <==> !MentionsOrdering(lower) && !MentionsGraphs(lower) && MentionsHashing(lower))
      && (r == SpecializedStructures <==>
            !MentionsOrdering(lower) && !MentionsGraphs(lower) && !MentionsHashing(lower) && MentionsContainers(lower))
      && (r == StringProcessing <==>
            !MentionsOrdering(lower) && !MentionsGraphs(lower) && !MentionsHashing(lower) && !MentionsContainers(lower)
            && MentionsText(lower))
      && (r == DynamicProgramming <==>
            !MentionsOrdering(lower) && !MentionsGraphs(lower) && !MentionsHashing(lower) && !MentionsContainers(lower)
            && !MentionsText(lower) && MentionsDynamic(lower))
      && (r == OptimizedApproaches <==>
            !MentionsOrdering(lower) && !MentionsGraphs(lower) && !MentionsHashing(lower) && !MentionsContainers(lower)
            && !MentionsText(lower) && !MentionsDynamic(lower))
  {
    var lower := ToLower(prompt);
    if Contains(lower, "sort") || Contains(lower, "order") then ArraysAndComparisons
    else if Contains(lower, "array") || Contains(lower, "list") then ArraysAndComparisons
    else if MentionsGraphs(lower) then GraphStructures
    else if MentionsHashing(lower) then HashTables
    else if MentionsContainers(lower) then SpecializedStructures
    else if MentionsText(lower) then StringProcessing
    else if MentionsDynamic(lower) then DynamicProgramming
    else OptimizedApproaches
  }

  /** `getTimeComplexity`: "sort" beats every other rule; "O(log n)" needs both "search" and "binary". */
  function TimeComplexity(prompt: string): (r: string)
    ensures var lower := ToLower(prompt);
      && (r == "O(n log n)" <==> Contains(lower, "sort"))
      && (r == "O(log n)" <==> !Contains(lower, "sort") && Contains(lower, "search") && Contains(lower, "binary"))
      && (r == QuadraticMojibake <==>
            !Contains(lower, "sort") && !(Contains(lower, "search") && Contains(lower, "binary"))
            && (Contains(lower, "nested") || Contains(lower, "matrix")))
      && (r == "O(V + E)" <==>
            !Contains(lower, "sort") && !(Contains(lower, "search") && Contains(lower, "binary"))
            && !Contains(lower, "nested") && !Contains(lower, "matrix")
            && !Contains(lower, "recursive") && !Contains(lower, "tree")
            && (Contains(lower, "graph") || Contains(lower, "bfs") || Contains(lower, "dfs")))
      && (r == "O(n)" <==>
            !Contains(lower, "sort") && !(Contains(lower, "search") && Contains(lower, "binary"))
            && !Contains(lower, "nested") && !Contains(lower, "matrix")
            && (Contains(lower, "recursive") || Contains(lower, "tree")
                || !(Contains(lower, "graph") || Contains(lower, "bfs") || Contains(lower, "dfs"))))
    ensures r in {"O(n log n)", "O(log n)", QuadraticMojibake, "O(n)", "O(V + E)"}
  {
    var lower := ToLower(prompt);
    if Contains(lower, "sort") then "O(n log n)"
    else if Contains(lower, "search") && Contains(lower, "binary") then "O(log n)"
    else if Contains(lower, "nested") || Contains(lower, "matrix") then QuadraticMojibake
    else if Contains(lower, "recursive") || Contains(lower, "tree") then "O(n)"
    else if Contains(lower, "graph") || Contains(lower, "bfs") || Contains(lower, "dfs") then "O(V + E)"
    else "O(n)"
  }

  /** `getSpaceComplexity`: "in-place" or "constant" gives "O(1)" whatever else the prompt says. */
  function SpaceComplexity(prompt: string): (r: string)
    ensures var lower := ToLower(prompt);
      && (r == "O(1)" <==> Contains(lower, "in-place") || Contains(lower, "constant"))
      && (r == QuadraticMojibake <==>
            !Contains(lower, "in-place") && !Contains(lower, "constant")
            && !Contains(lower, "recursive") && !Contains(lower, "stack")
            && !Contains(lower, "hash") && !Contains(lower, "map")
            && (Contains(lower, "matrix") || Contains(lower, "2d")))
    ensures r in {"O(1)", "O(n)", QuadraticMojibake}
  {
    var lower := ToLower(prompt);
    if Contains(lower, "in-place") || Contains(lower, "constant") then "O(1)"
    else if Contains(lower, "recursive") || Contains(lower, "stack") then "O(n)"
    else if Contains(lower, "hash") || Contains(lower, "map") then "O(n)"
    else if Contains(lower, "matrix") || Contains(lower, "2d") then QuadraticMojibake
    else "O(n)"
  }

  /** The classifiers see only the lower-cased prompt, so they ignore case. */
  lemma ClassifiersIgnoreCase(prompt: string)
    ensures DominantDataStructure(ToLower(prompt)) == DominantDataStructure(prompt)
    ensures TimeComplexity(ToLower(prompt)) == TimeComplexity(prompt)
    ensures SpaceComplexity(ToLower(prompt)) == SpaceComplexity(prompt)
  {
    LowerIdempotent(prompt);
  }

  /** The mock code: the template's language key, the prompt excerpt in its header and the difficulty. */
  datatype MockCode = MockCode(languageKey: string, excerpt: string, difficulty: string)

  /** `prompt.slice(0, 50)`. */
  function Excerpt(prompt: string): (r: string)
    ensures |r| <= 50 && r <= prompt
    ensures |prompt| <= 50 ==> r == prompt
    ensures |prompt| > 50 ==> |r| == 50
  {
    if |prompt| <= 50 then prompt else prompt[..50]
  }

  /** `generateMockCode`: the JavaScript template for any language other than python and java. */
  function GenerateMockCode(prompt: string, language: string, difficulty: string): (r: MockCode)
    ensures r.languageKey in {"javascript", "python", "java"}
    ensures r.languageKey == language <==> language in {"javascript", "python", "java"}
    ensures r.excerpt == Excerpt(prompt) && r.difficulty == difficulty
  {
    MockCode(if language in {"javascript", "python", "java"} then language else "javascript", Excerpt(prompt), difficulty)
  }

  /** The file extension of `downloadCode`: java for anything other than javascript and python. */
  function DownloadExtension(language: string): (ext: string)
    ensures ext in {"js", "py", "java"}
    ensures ext == "js" <==> language == "javascript"
    ensures ext == "py" <==> language == "python"
  {
    if language == "javascript" then "js" else if language == "python" then "py" else "java"
  }

  /** The solution `generateCode` shows. */
  datatype GeneratedSolution = GeneratedSolution(
    code: MockCode,
    dataStructure: string,
    language: string,
    time: string,
    space: string)

  /** `generateCode`: nothing for a blank prompt; otherwise the analysed mock solution. */
  function GenerateCode(prompt: string, language: string, difficulty: string): (r: Option<GeneratedSolution>)
    ensures r.None? <==> forall i :: 0 <= i < |prompt| ==> IsWhitespace(prompt[i])
    ensures r.Some? ==> r.value.code == GenerateMockCode(prompt, language, difficulty)
    ensures r.Some? ==> r.value.time == TimeComplexity(prompt) && r.value.space == SpaceComplexity(prompt)
    ensures r.Some? ==> r.value.dataStructure == DominantDataStructure(prompt) && r.value.language == language
  {
    TrimEmptyIffBlank(prompt);
    if Trim(prompt) == [] then None
    else Some(GeneratedSolution(GenerateMockCode(prompt, language, difficulty), DominantDataStructure(prompt), language,
                                TimeComplexity(prompt), SpaceComplexity(prompt)))
  }
}
