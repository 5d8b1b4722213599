/**
 * The algorithm catalogue of app/lib/algorithm-database.ts: the record shape,
 * the four entries the repository ships, and the queries over them (lookup
 * by id, category and difficulty filters, case-insensitive search, related
 * entries).  Every query is an order-preserving filter over the constant
 * list, so its result is a subsequence of the catalogue.
 *
 * Of each record the model keeps the fields some query or some other part of
 * the application reads; the long descriptions, examples, constraints,
 * hints, the embedded implementations, applications, rating, author and
 * dates are displayed content only.
 */
module AlgorithmDatabase {
  import opened Wrappers
  import opened Text
  import opened Sequences

  datatype Difficulty = Easy | Medium | Hard

  /** The text TypeScript stores for a difficulty. */
  function DifficultyName(d: Difficulty): (name: string)
    ensures name in {"Easy", "Medium", "Hard"}
  {
    match d
    case Easy => "Easy"
    case Medium => "Medium"
    case Hard => "Hard"
  }

  /** Different difficulties have different names, so comparing names compares difficulties. */
  lemma DifficultyNameInjective(d: Difficulty, e: Difficulty)
    ensures DifficultyName(d) == DifficultyName(e) <==> d == e
  {
  }

  /** A catalogue test case; hidden ones are only used when grading. */
  datatype StoredTestCase = StoredTestCase(input: string, expected: string, hidden: bool)

  datatype Algorithm = Algorithm(
    id: int,
    name: string,
    category: string,
    difficulty: Difficulty,
    timeComplexity: string,
    spaceComplexity: string,
    description: string,
    languages: seq<string>,
    views: nat,
    tags: seq<string>,
    testCases: seq<StoredTestCase>,
    relatedAlgorithms: seq<int>)

  /** The four sorting inputs every sorting entry shares, visible. */
  const SortingCases: seq<StoredTestCase> := [
    StoredTestCase("[64, 34, 25, 12, 22, 11, 90]", "[11, 12, 22, 25, 34, 64, 90]", false),
    StoredTestCase("[5, 2, 8, 1, 9]", "[1, 2, 5, 8, 9]", false),
    StoredTestCase("[1]", "[1]", false),
    StoredTestCase("[]", "[]", false)
  ]

  const BubbleSortEntry := Algorithm(
    1, "Bubble Sort", "Sorting", Easy, "O(n²)", "O(1)",
    "Simple comparison-based sorting algorithm that repeatedly steps through the list",
    ["JavaScript", "Python", "Java", "C++"], 45230,
    ["comparison", "stable", "in-place", "adaptive"],
    SortingCases + [StoredTestCase("[3, 3, 3]", "[3, 3, 3]", true)],
    [2, 3, 4])

  const QuickSortEntry := Algorithm(
    2, "Quick Sort", "Sorting", Medium, "O(n log n)", "O(log n)",
    "Efficient divide-and-conquer sorting algorithm with average O(n log n) performance",
    ["JavaScript", "Python", "Java", "C++"], 78450,
    ["divide-conquer", "in-place", "unstable", "recursive"],
    SortingCases + [StoredTestCase("[3, 3, 3, 3]", "[3, 3, 3, 3]", true),
                    StoredTestCase("[9, 8, 7, 6, 5]", "[5, 6, 7, 8, 9]", true)],
    [1, 3, 4])

  const MergeSortEntry := Algorithm(
    3, "Merge Sort", "Sorting", Medium, "O(n log n)", "O(n)",
    "Stable divide-and-conquer sorting algorithm with guaranteed O(n log n) performance",
    ["JavaScript", "Python", "Java", "C++"], 65230,
    ["divide-conquer", "stable", "recursive", "external-sorting"],
    SortingCases + [StoredTestCase("[3, 3, 3, 3]", "[3, 3, 3, 3]", true),
                    StoredTestCase("[9, 8, 7, 6, 5, 4, 3, 2, 1]", "[1, 2, 3, 4, 5, 6, 7, 8, 9]", true)],
    [1, 2, 4])

  const BinarySearchEntry := Algorithm(
    4, "Binary Search", "Searching", Easy, "O(log n)", "O(1)",
    "Efficient search algorithm for sorted arrays using divide-and-conquer",
    ["JavaScript", "Python", "Java", "C++", "Go"], 89340,
    ["divide-conquer", "iterative", "recursive", "logarithmic"],
    [StoredTestCase("[1, 3, 5, 7, 9, 11, 13, 15], 7", "3", false),
     StoredTestCase("[1, 3, 5, 7, 9, 11, 13, 15], 1", "0", false),
     StoredTestCase("[1, 3, 5, 7, 9, 11, 13, 15], 15", "7", false),
     StoredTestCase("[1, 3, 5, 7, 9, 11, 13, 15], 4", "-1", false),
     StoredTestCase("[5], 5", "0", true),
     StoredTestCase("[], 1", "-1", true)],
    [5, 6, 7])

  /** `algorithmDatabase`, in its declared order. */
  const Database: seq<Algorithm> := [BubbleSortEntry, QuickSortEntry, MergeSortEntry, BinarySearchEntry]

  /** No two entries share an id. */
  predicate DistinctIds(db: seq<Algorithm>) {
    forall i, j :: 0 <= i < j < |db| ==> db[i].id != db[j].id
  }

  /** The catalogue's ids are 1, 2, 3, 4, so lookup by id is unambiguous. */
  lemma DatabaseIds()
    ensures DistinctIds(Database)
    ensures forall i :: 0 <= i < |Database| ==> Database[i].id == i + 1
  {
  }

  // ---------------------------------------------------------------------------
  // Order-preserving filters
  // ---------------------------------------------------------------------------

  /** `Array.prototype.filter`: the entries that `keep` accepts, in order. */
  function Filter(db: seq<Algorithm>, keep: Algorithm -> bool): (kept: seq<Algorithm>)
    ensures IsSubsequence(kept, db)
    ensures forall a :: a in kept <==> a in db && keep(a)
    ensures forall a :: multiset(kept)[a] == if keep(a) then multiset(db)[a] else 0
    ensures |kept| <= |db|
  {
    if db == [] then []
    else
      assert db == [db[0]] + db[1..];
      if keep(db[0]) then [db[0]] + Filter(db[1..], keep)
      else Filter(db[1..], keep)
  }

  /** A filter that accepts everything is the identity. */
  lemma {:induction false} FilterAll(db: seq<Algorithm>, keep: Algorithm -> bool)
    requires forall a :: a in db ==> keep(a)
    ensures Filter(db, keep) == db
  {
    if db != [] {
      FilterAll(db[1..], keep);
    }
  }

  // ---------------------------------------------------------------------------
  // Queries
  // ---------------------------------------------------------------------------

  /** `Array.prototype.find` by id: the first entry with that id. */
  function FindById(db: seq<Algorithm>, id: int): (found: Option<Algorithm>)
    ensures found.Some? <==> exists i :: 0 <= i < |db| && db[i].id == id
    ensures found.Some? ==> found.value in db && found.value.id == id
  {
    if db == [] then None
    else if db[0].id == id then Some(db[0])
    else
      var rest := FindById(db[1..], id);
      assert forall i :: 1 <= i < |db| ==> db[i] == db[1..][i - 1];
      rest
  }

  /** With distinct ids, finding an entry's id returns that entry. */
  lemma {:induction false} FindByIdEntry(db: seq<Algorithm>, k: int)
    requires DistinctIds(db) && 0 <= k < |db|
    ensures FindById(db, db[k].id) == Some(db[k])
  {
    if k > 0 {
      assert db[0].id != db[k].id;
      assert DistinctIds(db[1..]) by {
        forall i, j | 0 <= i < j < |db| - 1 ensures db[1..][i].id != db[1..][j].id {
          assert db[1..][i] == db[i + 1] && db[1..][j] == db[j + 1];
        }
      }
      FindByIdEntry(db[1..], k - 1);
    }
  }

  /** `getAlgorithmById`. */
  function GetAlgorithmById(id: int): (found: Option<Algorithm>)
    ensures found.Some? <==> 1 <= id <= 4
    ensures found.Some? ==> found.value in Database && found.value.id == id
  {
    DatabaseIds();
    assert 1 <= id <= 4 ==> Database[id - 1].id == id;
    FindById(Database, id)
  }

  /** Every catalogue entry is what lookup by its id returns. */
  lemma GetAlgorithmByIdOfEntry(k: int)
    requires 0 <= k < |Database|
    ensures GetAlgorithmById(Database[k].id) == Some(Database[k])
  {
    DatabaseIds();
    FindByIdEntry(Database, k);
  }

  /** `getAlgorithmsByCategory`: the whole catalogue for "All", else the entries of that category. */
  function GetAlgorithmsByCategory(category: string): (r: seq<Algorithm>)
    ensures category == "All" ==> r == Database
    ensures category != "All" ==> IsSubsequence(r, Database)
    ensures category != "All" ==> forall a :: a in r <==> a in Database && a.category == category
  {
    if category == "All" then Database
    else Filter(Database, (a: Algorithm) => a.category == category)
  }

  /** `getAlgorithmsByDifficulty`: the whole catalogue for "All", else the entries of that difficulty. */
  function GetAlgorithmsByDifficulty(difficulty: string): (r: seq<Algorithm>)
    ensures difficulty == "All" ==> r == Database
    ensures difficulty != "All" ==> IsSubsequence(r, Database)
    ensures difficulty != "All" ==> forall a :: a in r <==> a in Database && DifficultyName(a.difficulty) == difficulty
  {
    if difficulty == "All" then Database
    else Filter(Database, (a: Algorithm) => DifficultyName(a.difficulty) == difficulty)
  }

  /** Some tag contains the (already lower-cased) query, ignoring the tag's case. */
  predicate SomeTagContains(tags: seq<string>, lowerQuery: string) {
    exists k :: 0 <= k < |tags| && Contains(ToLower(tags[k]), lowerQuery)
  }

  /**
   * The search test shared by `searchAlgorithms` and the library page: the
   * lower-cased query occurs in the lower-cased name, description, some tag
   * or category.
   */
  predicate MatchesQuery(a: Algorithm, query: string) {
    var q := ToLower(query);
    || Contains(ToLower(a.name), q)
    || Contains(ToLower(a.description), q)
    || SomeTagContains(a.tags, q)
    || Contains(ToLower(a.category), q)
  }

  /** The empty query matches every entry. */
  lemma EmptyQueryMatches(a: Algorithm)
    ensures MatchesQuery(a, "")
  {
    ContainsEmpty(ToLower(a.name));
  }

  /** The search ignores the case of the query. */
  lemma MatchesQueryIgnoresCase(a: Algorithm, query: string)
    ensures MatchesQuery(a, query) <==> MatchesQuery(a, ToLower(query))
  {
    LowerIdempotent(query);
  }

  /** `searchAlgorithms`: the matching entries, in catalogue order. */
  function SearchAlgorithms(query: string): (r: seq<Algorithm>)
    ensures IsSubsequence(r, Database)
    ensures forall a :: a in r <==> a in Database && MatchesQuery(a, query)
  {
    Filter(Database, (a: Algorithm) => MatchesQuery(a, query))
  }

  /** An empty query finds the whole catalogue. */
  lemma SearchEmptyQuery()
    ensures SearchAlgorithms("") == Database
  {
    forall a | a in Database ensures MatchesQuery(a, "") {
      EmptyQueryMatches(a);
    }
    FilterAll(Database, (a: Algorithm) => MatchesQuery(a, ""));
  }

  /** The ids of a list that name a catalogue entry, in listed order and with repeats kept. */
  function KnownIds(ids: seq<int>): (known: seq<int>)
    ensures IsSubsequence(known, ids)
    ensures forall id :: id in known <==> id in ids && 1 <= id <= 4
    ensures forall id :: multiset(known)[id] == if 1 <= id <= 4 then multiset(ids)[id] else 0
    ensures forall k :: 0 <= k < |known| ==> 1 <= known[k] <= 4
  {
    if ids == [] then []
    else
      var rest := KnownIds(ids[1..]);
      var known := if 1 <= ids[0] <= 4 then [ids[0]] + rest else rest;
      KnownStep(ids, rest, known);
      known
  }

  /** Keeping or dropping one more id in front keeps `KnownIds`' contract. */
  lemma KnownStep(ids: seq<int>, rest: seq<int>, known: seq<int>)
    requires ids != []
    requires IsSubsequence(rest, ids[1..])
    requires forall id :: multiset(rest)[id] == if 1 <= id <= 4 then multiset(ids[1..])[id] else 0
    requires forall k :: 0 <= k < |rest| ==> 1 <= rest[k] <= 4
    requires known == if 1 <= ids[0] <= 4 then [ids[0]] + rest else rest
    ensures IsSubsequence(known, ids)
    ensures forall id :: id in known <==> id in ids && 1 <= id <= 4
    ensures forall id :: multiset(known)[id] == if 1 <= id <= 4 then multiset(ids)[id] else 0
    ensures forall k :: 0 <= k < |known| ==> 1 <= known[k] <= 4
  {
    KnownSubsequence(ids, rest, known);
    KnownRange(ids, rest, known);
    KnownMultiset(ids, rest, known);
    KnownCounts(ids, known);
  }

  /** Keeping or dropping one more id in front keeps a subsequence. */
  lemma KnownSubsequence(ids: seq<int>, rest: seq<int>, known: seq<int>)
    requires ids != []
    requires IsSubsequence(rest, ids[1..])
    requires rest != [] ==> 1 <= rest[0] <= 4
    requires known == if 1 <= ids[0] <= 4 then [ids[0]] + rest else rest
    ensures IsSubsequence(known, ids)
  {
    if 1 <= ids[0] <= 4 {
      assert known[0] == ids[0] && known[1..] == rest;
    } else if rest != [] {
      assert known == rest && known[0] != ids[0];
    }
  }

  /** Keeping or dropping one more id in front keeps only ids from 1 to 4. */
  lemma KnownRange(ids: seq<int>, rest: seq<int>, known: seq<int>)
    requires ids != []
    requires forall k :: 0 <= k < |rest| ==> 1 <= rest[k] <= 4
    requires known == if 1 <= ids[0] <= 4 then [ids[0]] + rest else rest
    ensures forall k :: 0 <= k < |known| ==> 1 <= known[k] <= 4
  {
    if 1 <= ids[0] <= 4 {
      forall k | 0 <= k < |known| ensures 1 <= known[k] <= 4 {
        if k > 0 {
          assert known[k] == rest[k - 1];
        }
      }
    }
  }


  /** Keeping or dropping one more id in front keeps every known id as often as it occurs. */
  lemma KnownMultiset(ids: seq<int>, rest: seq<int>, known: seq<int>)
    requires ids != []
    requires forall id :: multiset(rest)[id] == if 1 <= id <= 4 then multiset(ids[1..])[id] else 0
    requires known == if 1 <= ids[0] <= 4 then [ids[0]] + rest else rest
    ensures forall id :: multiset(known)[id] == if 1 <= id <= 4 then multiset(ids)[id] else 0
  {
    assert ids == [ids[0]] + ids[1..];
    assert multiset(ids) == multiset([ids[0]]) + multiset(ids[1..]);
  }

  /** An id occurs in a list exactly when its count there is positive. */
  lemma KnownCounts(ids: seq<int>, known: seq<int>)
    requires ids != []
    requires forall id :: multiset(known)[id] == if 1 <= id <= 4 then multiset(ids)[id] else 0
    ensures forall id :: id in known <==> id in ids && 1 <= id <= 4
  {
    forall id ensures id in known <==> id in ids && 1 <= id <= 4 {
      assert id in known <==> multiset(known)[id] > 0;
      assert id in ids <==> multiset(ids)[id] > 0;
    }
  }


  /**
   * `relatedAlgorithms.map(getAlgorithmById).filter(Boolean)`: one catalogue
   * entry per known id, in listed order and with repeats kept.
   */
  function ResolveIds(ids: seq<int>): (r: seq<Algorithm>)
    ensures |r| == |KnownIds(ids)| <= |ids|
    ensures forall k :: 0 <= k < |r| ==> r[k].id == KnownIds(ids)[k] && r[k] in Database && r[k].id in ids
  {
    if ids == [] then []
    else
      var rest := ResolveIds(ids[1..]);
      var found := GetAlgorithmById(ids[0]);
      ResolveStep(Database, ids, rest, found);
      if found.Some? then [found.value] + rest else rest
  }

  /** Resolving one more id in front against a catalogue `db` keeps the results in step with `KnownIds`. */
  lemma ResolveStep(db: seq<Algorithm>, ids: seq<int>, rest: seq<Algorithm>, found: Option<Algorithm>)
    requires ids != []
    requires found.Some? <==> 1 <= ids[0] <= 4
    requires found.Some? ==> found.value in db && found.value.id == ids[0]
    requires |rest| == |KnownIds(ids[1..])|
    requires forall k :: 0 <= k < |rest| ==>
               rest[k].id == KnownIds(ids[1..])[k] && rest[k] in db && rest[k].id in ids[1..]
    ensures var r := if found.Some? then [found.value] + rest else rest;
            && |r| == |KnownIds(ids)|
            && forall k :: 0 <= k < |r| ==> r[k].id == KnownIds(ids)[k] && r[k] in db && r[k].id in ids
  {
    var known, tail := KnownIds(ids), KnownIds(ids[1..]);
    if found.Some? {
      assert known == [ids[0]] + tail;
      var r := [found.value] + rest;
      forall k | 0 <= k < |r| ensures r[k].id == known[k] && r[k] in db && r[k].id in ids {
        if k > 0 {
          assert r[k] == rest[k - 1] && known[k] == tail[k - 1];
          assert rest[k - 1].id in ids[1..];
        }
      }
    } else {
      assert known == tail;
      forall k | 0 <= k < |rest| ensures rest[k].id in ids {
        assert rest[k].id in ids[1..];
      }
    }
  }

  /** Every resolved entry is what lookup by its id returns. */
  lemma ResolvedAreLookups(ids: seq<int>)
    ensures forall a :: a in ResolveIds(ids) ==> GetAlgorithmById(a.id) == Some(a)
  {
    forall a | a in ResolveIds(ids) ensures GetAlgorithmById(a.id) == Some(a) {
      var k :| 0 <= k < |Database| && Database[k] == a;
      GetAlgorithmByIdOfEntry(k);
    }
  }

  /** `getRelatedAlgorithms`: nothing for an unknown id, else the related entries that exist. */
  function GetRelatedAlgorithms(algorithmId: int): (r: seq<Algorithm>)
    ensures GetAlgorithmById(algorithmId).None? ==> r == []
    ensures GetAlgorithmById(algorithmId).Some? ==>
              r == ResolveIds(GetAlgorithmById(algorithmId).value.relatedAlgorithms)
    ensures forall a :: a in r ==> a in Database && a.id != algorithmId
  {
    match GetAlgorithmById(algorithmId)
    case None => []
    case Some(algorithm) =>
      NoSelfRelated(algorithm);
      ResolveIds(algorithm.relatedAlgorithms)
  }

  /** No entry lists itself among its related entries. */
  lemma NoSelfRelated(a: Algorithm)
    requires a in Database
    ensures a.id !in a.relatedAlgorithms
  {
    assert a == BubbleSortEntry || a == QuickSortEntry || a == MergeSortEntry || a == BinarySearchEntry;
  }

  /** Binary search lists 5, 6 and 7 as related, none of which exists, so it has no related entries. */
  lemma BinarySearchHasNoRelated()
    ensures GetRelatedAlgorithms(4) == []
  {
    GetAlgorithmByIdOfEntry(3);
  }

  /** Bubble sort's related entries are the other three, in listed order. */
  lemma BubbleSortRelated()
    ensures GetRelatedAlgorithms(1) == [QuickSortEntry, MergeSortEntry, BinarySearchEntry]
  {
    GetAlgorithmByIdOfEntry(0);
    ResolveOtherSorts(BubbleSortEntry.relatedAlgorithms);
  }

  /** The ids 2, 3, 4 resolve to quick sort, merge sort and binary search. */
  lemma ResolveOtherSorts(ids: seq<int>)
    requires ids == [2, 3, 4]
    ensures ResolveIds(ids) == [QuickSortEntry, MergeSortEntry, BinarySearchEntry]
  {
    assert KnownIds(ids) == [2, 3, 4] by {
      assert ids[1..] == [3, 4] && ids[1..][1..] == [4] && ids[1..][1..][1..] == [];
    }
    ResolveKnownOtherSorts(ids);
  }

  /** Once the known ids are 2, 3, 4, the resolved entries are the catalogue's last three. */
  lemma ResolveKnownOtherSorts(ids: seq<int>)
    requires KnownIds(ids) == [2, 3, 4]
    ensures ResolveIds(ids) == [Database[1], Database[2], Database[3]]
  {
    ResolvedPosition(ids, 0);
    ResolvedPosition(ids, 1);
    ResolvedPosition(ids, 2);
    SeqOfThree(ResolveIds(ids), Database[1], Database[2], Database[3]);
  }

  /** The `k`-th resolved entry is the catalogue entry at the position of the `k`-th known id. */
  lemma ResolvedPosition(ids: seq<int>, k: nat)
    requires k < |ResolveIds(ids)|
    ensures ResolveIds(ids)[k] == Database[KnownIds(ids)[k] - 1]
  {
    EntryOfId(ResolveIds(ids)[k]);
  }

  /** A three-element sequence is the display of its elements. */
  lemma SeqOfThree<T>(s: seq<T>, a: T, b: T, c: T)
    requires |s| == 3 && s[0] == a && s[1] == b && s[2] == c
    ensures s == [a, b, c]
  {
  }

  /** A catalogue entry sits at the position its id names. */
  lemma EntryOfId(a: Algorithm)
    requires a in Database
    ensures 1 <= a.id <= 4 && a == Database[a.id - 1]
  {
    DatabaseIds();
    var k :| 0 <= k < |Database| && Database[k] == a;
  }
}
