/**
 * The catalogue page of app/components/algorithm-library.tsx: the four-way
 * filter over the catalogue, the ordering of what it lists, the favourites
 * set and the filter controls with their Clear button.
 */
module AlgorithmLibrary {
  import opened Sequences
  import opened AlgorithmDatabase

  /** An entry is listed when it matches the query and each of the three selectors is "All" or agrees with it. */
  predicate Listed(a: Algorithm, query: string, category: string, difficulty: string, language: string) {
    && MatchesQuery(a, query)
    && (category == "All" || a.category == category)
    && (difficulty == "All" || DifficultyName(a.difficulty) == difficulty)
    && (language == "All" || language in a.languages)
  }

  /** The filtering half of `filteredAlgorithms`: the listed entries in catalogue order. */
  function FilterAlgorithms(db: seq<Algorithm>, query: string, category: string, difficulty: string, language: string)
    : (r: seq<Algorithm>)
    ensures IsSubsequence(r, db)
    ensures forall a :: a in r <==> a in db && Listed(a, query, category, difficulty, language)
    ensures forall a :: multiset(r)[a] == if Listed(a, query, category, difficulty, language) then multiset(db)[a] else 0
  {
    Filter(db, (a: Algorithm) => Listed(a, query, category, difficulty, language))
  }

  /** With an empty query and every selector at "All", the whole catalogue is listed. */
  lemma ClearedFiltersListEverything(db: seq<Algorithm>)
    ensures FilterAlgorithms(db, "", "All", "All", "All") == db
  {
    forall a | a in db ensures Listed(a, "", "All", "All", "All") {
      EmptyQueryMatches(a);
    }
    FilterAll(db, (a: Algorithm) => Listed(a, "", "All", "All", "All"));
  }

  /** The sort keys modelled; "name", "rating" and "date" are not part of this model. */
  predicate ModelledSort(sortBy: string) {
    sortBy !in {"name", "rating", "date"}
  }

  /** `difficultyOrder`: Easy 1, Medium 2, Hard 3. */
  function DifficultyRank(d: Difficulty): (rank: int)
    ensures 1 <= rank <= 3
    ensures d == Easy <==> rank == 1
    ensures d == Hard <==> rank == 3
  {
    match d
    case Easy => 1
    case Medium => 2
    case Hard => 3
  }

  /**
   * The comparator as a rank, earlier entries having smaller ranks:
   * "difficulty" sorts by `difficultyOrder`; "views" and every other key
   * (the default "popularity") sort by views, most viewed first.
   */
  function Rank(sortBy: string, a: Algorithm): int {
    if sortBy == "difficulty" then DifficultyRank(a.difficulty) else -(a.views as int)
  }

  /** Ranks never decrease from left to right. */
  predicate RankSorted(sortBy: string, s: seq<Algorithm>) {
    forall p, q :: 0 <= p < q < |s| ==> Rank(sortBy, s[p]) <= Rank(sortBy, s[q])
  }

  /** Places `x` before the first entry of `s` whose rank is not smaller, so ties keep `x` in front. */
  function Insert(sortBy: string, x: Algorithm, s: seq<Algorithm>): (r: seq<Algorithm>)
    ensures multiset(r) == multiset(s) + multiset{x}
    ensures |r| == |s| + 1
  {
    if s == [] then [x]
    else if Rank(sortBy, x) <= Rank(sortBy, s[0]) then [x] + s
    else
      assert s == [s[0]] + s[1..];
      [s[0]] + Insert(sortBy, x, s[1..])
  }

  /** Every entry of `s` has rank at least `bound`. */
  predicate RanksAtLeast(sortBy: string, s: seq<Algorithm>, bound: int) {
    forall k :: 0 <= k < |s| ==> bound <= Rank(sortBy, s[k])
  }

  /** A lower bound on the ranks of `s` and of `x` bounds the ranks after the insertion. */
  lemma {:induction false} InsertBound(sortBy: string, x: Algorithm, s: seq<Algorithm>, bound: int)
    requires RanksAtLeast(sortBy, s, bound) && bound <= Rank(sortBy, x)
    ensures RanksAtLeast(sortBy, Insert(sortBy, x, s), bound)
  {
    if s != [] && Rank(sortBy, x) > Rank(sortBy, s[0]) {
      InsertBound(sortBy, x, s[1..], bound);
    }
  }

  /** A head no higher than every rank of a rank-sorted tail gives a rank-sorted sequence. */
  lemma ConsSorted(sortBy: string, head: Algorithm, tail: seq<Algorithm>)
    requires RankSorted(sortBy, tail) && RanksAtLeast(sortBy, tail, Rank(sortBy, head))
    ensures RankSorted(sortBy, [head] + tail)
  {
    var r := [head] + tail;
    forall p, q | 0 <= p < q < |r| ensures Rank(sortBy, r[p]) <= Rank(sortBy, r[q]) {
      assert r[q] == tail[q - 1];
      if p > 0 {
        assert r[p] == tail[p - 1];
      }
    }
  }

  /** Inserting into a rank-sorted sequence keeps it rank-sorted. */
  lemma {:induction false} InsertSorted(sortBy: string, x: Algorithm, s: seq<Algorithm>)
    requires RankSorted(sortBy, s)
    ensures RankSorted(sortBy, Insert(sortBy, x, s))
  {
    if s == [] {
    } else if Rank(sortBy, x) <= Rank(sortBy, s[0]) {
      ConsSorted(sortBy, x, s);
    } else {
      var rest := s[1..];
      assert RankSorted(sortBy, rest) && RanksAtLeast(sortBy, rest, Rank(sortBy, s[0])) by {
        assert forall k :: 0 <= k < |rest| ==> rest[k] == s[k + 1];
      }
      InsertSorted(sortBy, x, rest);
      InsertBound(sortBy, x, rest, Rank(sortBy, s[0]));
      ConsSorted(sortBy, s[0], Insert(sortBy, x, rest));
    }
  }

  /** The ordering half of `filteredAlgorithms`: a stable insertion sort by rank. */
  function SortAlgorithms(sortBy: string, s: seq<Algorithm>): (r: seq<Algorithm>)
    ensures multiset(r) == multiset(s) && |r| == |s|
  {
    if s == [] then []
    else
      assert s == [s[0]] + s[1..];
      Insert(sortBy, s[0], SortAlgorithms(sortBy, s[1..]))
  }

  /** The listing is ordered by rank. */
  lemma {:induction false} SortAlgorithmsSorted(sortBy: string, s: seq<Algorithm>)
    ensures RankSorted(sortBy, SortAlgorithms(sortBy, s))
  {
    if s != [] {
      SortAlgorithmsSorted(sortBy, s[1..]);
      InsertSorted(sortBy, s[0], SortAlgorithms(sortBy, s[1..]));
    }
  }

  /**
   * A sequence already in rank order is left exactly as it is; in
   * particular entries of equal rank keep their catalogue order.
   */
  lemma {:induction false} SortAlgorithmsKeepsSorted(sortBy: string, s: seq<Algorithm>)
    requires RankSorted(sortBy, s)
    ensures SortAlgorithms(sortBy, s) == s
  {
    if s != [] {
      var rest := s[1..];
      assert RankSorted(sortBy, rest) by {
        assert forall k :: 0 <= k < |rest| ==> rest[k] == s[k + 1];
      }
      SortAlgorithmsKeepsSorted(sortBy, rest);
      assert SortAlgorithms(sortBy, s) == Insert(sortBy, s[0], rest);
      if rest != [] {
        assert rest[0] == s[1];
      }
      assert s == [s[0]] + rest;
    }
  }

  /** `filteredAlgorithms`: the listed entries, reordered by the selected key. */
  function FilteredAlgorithms(db: seq<Algorithm>, query: string, category: string, difficulty: string,
                              language: string, sortBy: string): (r: seq<Algorithm>)
    requires ModelledSort(sortBy)
    ensures multiset(r) == multiset(FilterAlgorithms(db, query, category, difficulty, language))
    ensures forall a :: a in r <==> a in db && Listed(a, query, category, difficulty, language)
    ensures RankSorted(sortBy, r)
  {
    var filtered := FilterAlgorithms(db, query, category, difficulty, language);
    var r := SortAlgorithms(sortBy, filtered);
    SortAlgorithmsSorted(sortBy, filtered);
    assert forall a :: a in r <==> a in multiset(filtered);
    r
  }

  /** By difficulty, every Easy entry comes before every Medium one, and every Medium before every Hard one. */
  lemma DifficultyOrder(db: seq<Algorithm>, query: string, category: string, difficulty: string, language: string)
    ensures var r := FilteredAlgorithms(db, query, category, difficulty, language, "difficulty");
      forall p, q :: 0 <= p < q < |r| ==>
        (r[q].difficulty == Easy ==> r[p].difficulty == Easy) && (r[p].difficulty == Hard ==> r[q].difficulty == Hard)
  {
    var r := FilteredAlgorithms(db, query, category, difficulty, language, "difficulty");
    forall p, q | 0 <= p < q < |r|
      ensures (r[q].difficulty == Easy ==> r[p].difficulty == Easy) && (r[p].difficulty == Hard ==> r[q].difficulty == Hard)
    {
      assert Rank("difficulty", r[p]) <= Rank("difficulty", r[q]);
    }
  }

  /** By views, and by the default popularity, the most viewed entries come first. */
  lemma ViewsOrder(db: seq<Algorithm>, query: string, category: string, difficulty: string, language: string,
                   sortBy: string)
    requires sortBy == "views" || sortBy == "popularity"
    ensures var r := FilteredAlgorithms(db, query, category, difficulty, language, sortBy);
      forall p, q :: 0 <= p < q < |r| ==> r[p].views >= r[q].views
  {
    var r := FilteredAlgorithms(db, query, category, difficulty, language, sortBy);
    forall p, q | 0 <= p < q < |r| ensures r[p].views >= r[q].views {
      assert Rank(sortBy, r[p]) <= Rank(sortBy, r[q]);
    }
  }

  /** `toggleFavorite` on the copied set: `id` flips membership, every other id keeps it. */
  function Toggle(favorites: set<int>, id: int): (r: set<int>)
    ensures id in r <==> id !in favorites
    ensures forall other :: other != id ==> (other in r <==> other in favorites)
  {
    if id in favorites then favorites - {id} else favorites + {id}
  }

  /** Toggling the same id twice restores the favourites. */
  lemma ToggleTwice(favorites: set<int>, id: int)
    ensures Toggle(Toggle(favorites, id), id) == favorites
  {
  }

  /** The Clear button shows when the query is non-empty or some selector is not "All". */
  function ShowClearButton(query: string, category: string, difficulty: string, language: string): (show: bool)
    ensures !show <==> query == [] && category == "All" && difficulty == "All" && language == "All"
  {
    query != [] || category != "All" || difficulty != "All" || language != "All"
  }

  /** The page's filter and favourites state. */
  class LibraryState {
    var searchQuery: string
    var selectedCategory: string
    var selectedDifficulty: string
    var selectedLanguage: string
    var sortBy: string
    var favorites: set<int>

    /** The initial state: nothing typed, every selector at "All", sorted by popularity, no favourites. */
    constructor()
      ensures searchQuery == [] && selectedCategory == "All" && selectedDifficulty == "All"
      ensures selectedLanguage == "All" && sortBy == "popularity" && favorites == {}
      ensures !ShowClearButton(searchQuery, selectedCategory, selectedDifficulty, selectedLanguage)
    {
      searchQuery := [];
      selectedCategory := "All";
      selectedDifficulty := "All";
      selectedLanguage := "All";
      sortBy := "popularity";
      favorites := {};
    }

    /** What the page lists for the current state. */
    function Listing(db: seq<Algorithm>): (r: seq<Algorithm>)
      reads this
      requires ModelledSort(sortBy)
      ensures forall a :: a in r <==> a in db && Listed(a, searchQuery, selectedCategory, selectedDifficulty, selectedLanguage)
    {
      FilteredAlgorithms(db, searchQuery, selectedCategory, selectedDifficulty, selectedLanguage, sortBy)
    }

    /** `toggleFavorite`. */
    method ToggleFavorite(id: int)
      modifies this
      ensures favorites == Toggle(old(favorites), id)
      ensures searchQuery == old(searchQuery) && selectedCategory == old(selectedCategory)
      ensures selectedDifficulty == old(selectedDifficulty) && selectedLanguage == old(selectedLanguage)
      ensures sortBy == old(sortBy)
    {
      var newFavorites := favorites;
      if id in newFavorites {
        newFavorites := newFavorites - {id};
      } else {
        newFavorites := newFavorites + {id};
      }
      favorites := newFavorites;
    }

    /** `clearFilters`: back to the initial filters; favourites are kept, and the whole catalogue is listed. */
    method ClearFilters(ghost db: seq<Algorithm>)
      modifies this
      ensures searchQuery == [] && selectedCategory == "All" && selectedDifficulty == "All"
      ensures selectedLanguage == "All" && sortBy == "popularity" && favorites == old(favorites)
      ensures !ShowClearButton(searchQuery, selectedCategory, selectedDifficulty, selectedLanguage)
      ensures multiset(Listing(db)) == multiset(db)
    {
      searchQuery := [];
      selectedCategory := "All";
      selectedDifficulty := "All";
      selectedLanguage := "All";
      sortBy := "popularity";
      ClearedFiltersListEverything(db);
    }
  }
}
