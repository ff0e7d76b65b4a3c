/**
 * The client's catalogue page: its filter state (search text, category, a price
 * range), the chain of filters and the sort it applies to the fetched books, how
 * many filters are active, and clearing them.
 */
module BookList {
  import opened Wrappers
  import opened Seqs
  import opened JsValue

  /** A fetched book, with the fields the page reads. Prices are exact. */
  datatype Book = Book(title: string, author: string, description: string, category: string,
                       price: real, createdAt: int)

  /**
   * A price box: empty (falsy), or holding text that `parseFloat` reads as a number,
   * or as NaN (None), against which every comparison is false.
   */
  datatype PriceField = Blank | Entered(parsed: Option<real>)

  /** The filter part of the page's state. */
  datatype Filters = Filters(searchTerm: string, category: string, min: PriceField, max: PriceField)
  {
    /** No search text, no category, both price boxes empty. */
    predicate NoneActive()
    {
      searchTerm == "" && category == "" && min.Blank? && max.Blank?
    }
  }

  /** The three kinds of filter the "Clear Filters (n)" button counts. */
  datatype FilterKind = SearchFilter | CategoryFilter | PriceFilter

  /**
   * The kinds in force: the two price boxes make one kind between them, so there
   * are at most three, and none exactly when no filter is set.
   */
  function ActiveKinds(f: Filters): (k: set<FilterKind>)
    ensures k <= {SearchFilter, CategoryFilter, PriceFilter}
    ensures k == {} <==> f.NoneActive()
    ensures PriceFilter in k <==> f.min.Entered? || f.max.Entered?
  {
    (if f.searchTerm != "" then {SearchFilter} else {})
    + (if f.category != "" then {CategoryFilter} else {})
    + (if f.min.Entered? || f.max.Entered? then {PriceFilter} else {})
  }

  /**
   * The lower-cased title, author or description contains the lower-cased term; so
   * a term found as typed in any of the three matches, and the empty term matches
   * every book.
   */
  predicate MatchesSearch(b: Book, term: string): (m: bool)
    ensures Includes(b.title, term) || Includes(b.author, term) || Includes(b.description, term) ==> m
    ensures term == "" ==> m
  {
    var t := ToLower(term);
    IncludesLowered(b.title, term);
    IncludesLowered(b.author, term);
    IncludesLowered(b.description, term);
    assert term == "" ==> OccursAt(ToLower(b.title), t, 0);
    Includes(ToLower(b.title), t) || Includes(ToLower(b.author), t) || Includes(ToLower(b.description), t)
  }

  /** Lower-casing both sides keeps an occurrence where it was. */
  lemma IncludesLowered(hay: string, needle: string)
    ensures Includes(hay, needle) ==> Includes(ToLower(hay), ToLower(needle))
  {
    if Includes(hay, needle) {
      var i: nat :| i <= |hay| && OccursAt(hay, needle, i);
      assert ToLower(hay)[i..i + |needle|] == ToLower(needle) by {
        forall k | 0 <= k < |needle| ensures ToLower(hay)[i + k] == ToLower(needle)[k] {
          assert hay[i + k] == needle[k];
        }
      }
      assert OccursAt(ToLower(hay), ToLower(needle), i);
    }
  }

  /** `book.price >= parseFloat(min)`; false against NaN. */
  predicate AtLeast(b: Book, bound: Option<real>)
  {
    bound.Some? && b.price >= bound.value
  }

  /** `book.price <= parseFloat(max)`; false against NaN. */
  predicate AtMost(b: Book, bound: Option<real>)
  {
    bound.Some? && b.price <= bound.value
  }

  /**
   * A book passes every filter in force: with none in force every book passes; an
   * entered bound is inclusive, and one `parseFloat` reads as NaN passes nothing.
   */
  predicate Passes(f: Filters, b: Book): (p: bool)
    ensures f.NoneActive() ==> p
    ensures p && f.searchTerm != "" ==> MatchesSearch(b, f.searchTerm)
    ensures p && f.category != "" ==> b.category == f.category
    ensures p && f.min.Entered? ==> f.min.parsed.Some? && b.price >= f.min.parsed.value
    ensures p && f.max.Entered? ==> f.max.parsed.Some? && b.price <= f.max.parsed.value
  {
    && (f.searchTerm == "" || MatchesSearch(b, f.searchTerm))
    && (f.category == "" || b.category == f.category)
    && (f.min.Blank? || AtLeast(b, f.min.parsed))
    && (f.max.Blank? || AtMost(b, f.max.parsed))
  }

  /** `Passes` as the callback handed to `filter`. */
  function PassesTest(f: Filters): Book -> bool
  {
    (b: Book) => Passes(f, b)
  }

  /** The first filter (search) alone. */
  predicate PassesSearch(f: Filters, b: Book)
  {
    f.searchTerm == "" || MatchesSearch(b, f.searchTerm)
  }

  /** The first two filters (search, category). */
  predicate PassesSearchCategory(f: Filters, b: Book)
  {
    PassesSearch(f, b) && (f.category == "" || b.category == f.category)
  }

  /** The first three filters (search, category, minimum price). */
  predicate PassesAllButMax(f: Filters, b: Book)
  {
    PassesSearchCategory(f, b) && (f.min.Blank? || AtLeast(b, f.min.parsed))
  }

  /**
   * String order by character code, standing in for `localeCompare`: negative,
   * zero or positive as `a` sorts before, with, or after `b`.
   */
  function LexCompare(a: string, b: string): (c: int)
    ensures -1 <= c <= 1
    ensures c == 0 <==> a == b
    decreases |a|
  {
    if a == [] then (if b == [] then 0 else -1)
    else if b == [] then 1
    else if a[0] < b[0] then -1
    else if a[0] > b[0] then 1
    else
      var c := LexCompare(a[1..], b[1..]);
      assert c == 0 ==> a == [a[0]] + a[1..] && b == [b[0]] + b[1..];
      c
  }

  lemma {:induction false} LexCompareFlips(a: string, b: string)
    ensures LexCompare(a, b) == -LexCompare(b, a)
    decreases |a|
  {
    if a != [] && b != [] && a[0] == b[0] {
      LexCompareFlips(a[1..], b[1..]);
    }
  }

  lemma {:induction false} LexCompareTransitive(a: string, b: string, c: string)
    requires LexCompare(a, b) <= 0 && LexCompare(b, c) <= 0
    ensures LexCompare(a, c) <= 0
    decreases |a|
  {
    if a != [] && b != [] && c != [] && a[0] == b[0] && b[0] == c[0] {
      LexCompareTransitive(a[1..], b[1..], c[1..]);
    }
  }

  /**
   * The page's sort comparator for each `sortBy` value: ascending title or author,
   * cheapest or dearest first, newest first; an unknown key ties every pair and so
   * leaves the order alone.
   */
  function Compare(sortBy: string, a: Book, b: Book): (r: real)
    ensures sortBy == "title" ==> (r < 0.0 <==> LexCompare(a.title, b.title) < 0) && (r == 0.0 <==> a.title == b.title)
    ensures sortBy == "author" ==> (r < 0.0 <==> LexCompare(a.author, b.author) < 0) && (r == 0.0 <==> a.author == b.author)
    ensures sortBy == "price-low" ==> (r <= 0.0 <==> a.price <= b.price)
    ensures sortBy == "price-high" ==> (r <= 0.0 <==> a.price >= b.price)
    ensures sortBy == "newest" ==> (r <= 0.0 <==> a.createdAt >= b.createdAt)
    ensures sortBy !in {"title", "author", "price-low", "price-high", "newest"} ==> r == 0.0
  {
    if sortBy == "title" then LexCompare(a.title, b.title) as real
    else if sortBy == "price-low" then a.price - b.price
    else if sortBy == "price-high" then b.price - a.price
    else if sortBy == "author" then LexCompare(a.author, b.author) as real
    else if sortBy == "newest" then (b.createdAt - a.createdAt) as real
    else 0.0
  }

  /** Swapping the arguments negates every comparator. */
  lemma CompareFlips(sortBy: string, a: Book, b: Book)
    ensures Compare(sortBy, a, b) == -Compare(sortBy, b, a)
  {
    LexCompareFlips(a.title, b.title);
    LexCompareFlips(a.author, b.author);
  }

  /** "Sorts no later than" is transitive for every comparator. */
  lemma CompareTransitive(sortBy: string, a: Book, b: Book, c: Book)
    requires Compare(sortBy, a, b) <= 0.0 && Compare(sortBy, b, c) <= 0.0
    ensures Compare(sortBy, a, c) <= 0.0
  {
    if sortBy == "title" {
      LexCompareTransitive(a.title, b.title, c.title);
    } else if sortBy == "author" {
      LexCompareTransitive(a.author, b.author, c.author);
    }
  }

  /** Every book sorts no later than every book after it. */
  ghost predicate Sorted(sortBy: string, s: seq<Book>)
  {
    forall i, j :: 0 <= i < j < |s| ==> Compare(sortBy, s[i], s[j]) <= 0.0
  }

  /** Insert `x` before the first book it does not sort after. */
  function Insert(sortBy: string, x: Book, s: seq<Book>): (r: seq<Book>)
    ensures |r| == |s| + 1
    ensures multiset(r) == multiset(s) + multiset{x}
    decreases |s|
  {
    if s == [] then [x]
    else if Compare(sortBy, x, s[0]) <= 0.0 then [x] + s
    else
      assert s == [s[0]] + s[1..];
      [s[0]] + Insert(sortBy, x, s[1..])
  }

  /**
   * `filtered.sort(comparator)`: a stable insertion sort. All the comparators are
   * consistent, so this is the one order any stable sort produces.
   */
  function Sort(sortBy: string, s: seq<Book>): (r: seq<Book>)
    ensures |r| == |s|
    ensures multiset(r) == multiset(s)
    decreases |s|
  {
    if s == [] then []
    else
      assert s == [s[0]] + s[1..];
      Insert(sortBy, s[0], Sort(sortBy, s[1..]))
  }

  lemma SortedCons(sortBy: string, h: Book, t: seq<Book>)
    requires Sorted(sortBy, t)
    requires forall y :: y in t ==> Compare(sortBy, h, y) <= 0.0
    ensures Sorted(sortBy, [h] + t)
  {
  }

  lemma {:induction false} InsertSorted(sortBy: string, x: Book, s: seq<Book>)
    requires Sorted(sortBy, s)
    ensures Sorted(sortBy, Insert(sortBy, x, s))
    decreases |s|
  {
    if s == [] {
    } else if Compare(sortBy, x, s[0]) <= 0.0 {
      forall y | y in s ensures Compare(sortBy, x, y) <= 0.0 {
        var k :| 0 <= k < |s| && s[k] == y;
        if k > 0 {
          CompareTransitive(sortBy, x, s[0], y);
        }
      }
      SortedCons(sortBy, x, s);
    } else {
      var t := s[1..];
      assert Sorted(sortBy, t) by {
        forall i, j | 0 <= i < j < |t| ensures Compare(sortBy, t[i], t[j]) <= 0.0 {
          assert t[i] == s[i + 1] && t[j] == s[j + 1];
        }
      }
      InsertSorted(sortBy, x, t);
      var rest := Insert(sortBy, x, t);
      forall y | y in rest ensures Compare(sortBy, s[0], y) <= 0.0 {
        assert y in multiset(rest);
        if y == x {
          CompareFlips(sortBy, x, s[0]);
        } else {
          assert y in multiset(t);
          var k :| 0 <= k < |t| && t[k] == y;
          assert s[k + 1] == y;
        }
      }
      SortedCons(sortBy, s[0], rest);
    }
  }

  /** The sort orders the books by the comparator. */
  lemma {:induction false} SortSorted(sortBy: string, s: seq<Book>)
    ensures Sorted(sortBy, Sort(sortBy, s))
    decreases |s|
  {
    if s != [] {
      SortSorted(sortBy, s[1..]);
      InsertSorted(sortBy, s[0], Sort(sortBy, s[1..]));
    }
  }

  /** Under "price-low" prices never decrease; under "price-high" they never increase. */
  lemma PriceSortsAreMonotone(s: seq<Book>)
    ensures forall i, j :: 0 <= i < j < |s| ==> Sort("price-low", s)[i].price <= Sort("price-low", s)[j].price
    ensures forall i, j :: 0 <= i < j < |s| ==> Sort("price-high", s)[i].price >= Sort("price-high", s)[j].price
  {
    SortSorted("price-low", s);
    SortSorted("price-high", s);
  }

  /**
   * What the page shows for a list of books, filters and a sort key: every book
   * that passes every filter in force, as often as it was fetched, in sorted order.
   */
  function Visible(books: seq<Book>, f: Filters, sortBy: string): (r: seq<Book>)
    ensures Sorted(sortBy, r)
    ensures forall b :: multiset(r)[b] == if Passes(f, b) then multiset(books)[b] else 0
  {
    var kept := Filter(books, PassesTest(f));
    SortSorted(sortBy, kept);
    forall b ensures multiset(kept)[b] == if Passes(f, b) then multiset(books)[b] else 0 {
      FilterMultiplicity(books, PassesTest(f), b);
    }
    Sort(sortBy, kept)
  }

  /** With no filter in force the page shows every fetched book, only reordered. */
  lemma NoFiltersShowsAll(books: seq<Book>, f: Filters, sortBy: string)
    requires f.NoneActive()
    ensures Filter(books, PassesTest(f)) == books
    ensures multiset(Visible(books, f, sortBy)) == multiset(books)
  {
  }

  /** The page's state: the fetched books, the filters, the sort key and what is shown. */
  class BookListState {
    var books: seq<Book>
    var filteredBooks: seq<Book>
    var searchTerm: string
    var selectedCategory: string
    var sortBy: string
    var priceMin: PriceField
    var priceMax: PriceField

    /** The page as first rendered: nothing fetched, no filters, sorted by title. */
    constructor ()
      ensures books == [] && filteredBooks == []
      ensures searchTerm == "" && selectedCategory == "" && sortBy == "title"
      ensures priceMin == Blank && priceMax == Blank
    {
      books, filteredBooks := [], [];
      searchTerm, selectedCategory, sortBy := "", "", "title";
      priceMin, priceMax := Blank, Blank;
    }

    function CurrentFilters(): Filters
      reads this
    {
      Filters(searchTerm, selectedCategory, priceMin, priceMax)
    }

    /**
     * `filterAndSortBooks`: search, category, minimum and maximum filters in turn,
     * each only when set, then the sort; the result becomes `filteredBooks`.
     */
    method FilterAndSortBooks()
      modifies this`filteredBooks
      ensures filteredBooks == Visible(books, CurrentFilters(), sortBy)
    {
      var f := CurrentFilters();
      ghost var p0 := (b: Book) => true;
      ghost var p1 := (b: Book) => PassesSearch(f, b);
      ghost var p2 := (b: Book) => PassesSearchCategory(f, b);
      ghost var p3 := (b: Book) => PassesAllButMax(f, b);
      ghost var p4 := PassesTest(f);
      var filtered := books;
      assert filtered == Filter(books, p0) by {
        FilterKeepsAll(books, p0);
      }
      var bySearch := (b: Book) => MatchesSearch(b, f.searchTerm);
      if f.searchTerm != "" {
        filtered := Filter(filtered, bySearch);
      }
      assert filtered == Filter(books, p1) by {
        if f.searchTerm != "" {
          FilterCompose(books, p0, bySearch, p1);
        } else {
          FilterCongruent(books, p0, p1);
        }
      }
      var byCategory := (b: Book) => b.category == f.category;
      if f.category != "" {
        filtered := Filter(filtered, byCategory);
      }
      assert filtered == Filter(books, p2) by {
        if f.category != "" {
          FilterCompose(books, p1, byCategory, p2);
        } else {
          FilterCongruent(books, p1, p2);
        }
      }
      var byMin := (b: Book) => f.min.Entered? && AtLeast(b, f.min.parsed);
      if f.min.Entered? {
        filtered := Filter(filtered, byMin);
      }
      assert filtered == Filter(books, p3) by {
        if f.min.Entered? {
          FilterCompose(books, p2, byMin, p3);
        } else {
          FilterCongruent(books, p2, p3);
        }
      }
      var byMax := (b: Book) => f.max.Entered? && AtMost(b, f.max.parsed);
      if f.max.Entered? {
        filtered := Filter(filtered, byMax);
      }
      assert filtered == Filter(books, p4) by {
        if f.max.Entered? {
          FilterCompose(books, p3, byMax, p4);
        } else {
          FilterCongruent(books, p3, p4);
        }
      }
      filteredBooks := Sort(sortBy, filtered);
    }

    /** `clearFilters`: empties the search, category and both price boxes, and sorts by title. */
    method ClearFilters()
      modifies this`searchTerm, this`selectedCategory, this`sortBy, this`priceMin, this`priceMax
      ensures CurrentFilters().NoneActive() && sortBy == "title"
      ensures ActiveKinds(CurrentFilters()) == {}
      ensures books == old(books) && filteredBooks == old(filteredBooks)
    {
      searchTerm, selectedCategory, sortBy := "", "", "title";
      priceMin, priceMax := Blank, Blank;
    }

    /** `getActiveFiltersCount`: one each for search, category and the price range. */
    method ActiveFiltersCount() returns (count: nat)
      ensures count == |ActiveKinds(CurrentFilters())|
      ensures count <= 3
      ensures count == 0 <==> CurrentFilters().NoneActive()
    {
      count := 0;
      if searchTerm != "" {
        count := count + 1;
      }
      if selectedCategory != "" {
        count := count + 1;
      }
      if priceMin.Entered? || priceMax.Entered? {
        count := count + 1;
      }
      ActiveKindsSize(CurrentFilters());
    }
  }

  /** The number of active kinds is the number of the three tests that hold. */
  lemma ActiveKindsSize(f: Filters)
    ensures |ActiveKinds(f)| == (if f.searchTerm != "" then 1 else 0)
                              + (if f.category != "" then 1 else 0)
                              + (if f.min.Entered? || f.max.Entered? then 1 else 0)
  {
  }
}
