/**
 * The two tests of the server's catalog query (GET /api/books): an exact category
 * match, and a case-insensitive substring search of the title, then the author.
 * Stored books are plain records whose fields an admin may have set to anything,
 * so the search can fail the way JavaScript does: calling `toLowerCase` on a
 * title or author that is not a string throws a TypeError.
 */
module Catalog {
  import opened Wrappers
  import opened JsValue
  import opened Seqs

  /** `book.category === category`: an array or object query value matches no book. */
  predicate CategoryMatches(book: Record, category: Value)
  {
    StrictEq(Get(book, "category"), category)
  }

  /** `v.toLowerCase()`: only strings have it; on anything else the call throws (None). */
  function LowerOf(v: Value): (r: Option<string>)
    ensures r.Some? <==> v.Str?
    ensures r.Some? ==> r.value == ToLower(v.s)
  {
    if v.Str? then Some(ToLower(v.s)) else None
  }

  /**
   * `book.title.toLowerCase().includes(needle) || book.author.toLowerCase().includes(needle)`:
   * Some(verdict), or None when the evaluation throws. The author is only looked at
   * when the title does not match.
   */
  function SearchMatch(book: Record, needle: string): (r: Option<bool>)
    ensures r == Some(true) <==>
      Get(book, "title").Str? &&
      (Includes(ToLower(Get(book, "title").s), needle) ||
       (Get(book, "author").Str? && Includes(ToLower(Get(book, "author").s), needle)))
    ensures r.None? <==>
      !Get(book, "title").Str? ||
      (!Includes(ToLower(Get(book, "title").s), needle) && !Get(book, "author").Str?)
  {
    match LowerOf(Get(book, "title"))
    case None => None
    case Some(title) =>
      if Includes(title, needle) then Some(true)
      else
        match LowerOf(Get(book, "author"))
        case None => None
        case Some(author) => Some(Includes(author, needle))
  }

  /**
   * `books.filter(book => <search>)`: the books the search keeps, in order, or None
   * when the callback throws on some book.
   */
  function FilterSearch(books: seq<Record>, needle: string): (r: Option<seq<Record>>)
    ensures r.None? <==> exists i :: 0 <= i < |books| && SearchMatch(books[i], needle).None?
    ensures r.Some? ==> r.value == Filter(books, (b: Record) => SearchMatch(b, needle) == Some(true))
    decreases |books|
  {
    if books == [] then Some([])
    else
      match SearchMatch(books[0], needle)
      case None => None
      case Some(keep) =>
        match FilterSearch(books[1..], needle)
        case None =>
          assert forall i :: 1 <= i < |books| ==> books[i] == books[1..][i - 1];
          None
        case Some(rest) =>
          assert forall i :: 1 <= i < |books| ==> books[i] == books[1..][i - 1];
          Some((if keep then [books[0]] else []) + rest)
  }

  /**
   * The books GET /api/books answers with: a truthy `category` must be `===` to the
   * book's, and a truthy `search` must be a string found, lower-cased, in the
   * lower-cased title or author.
   */
  predicate Wanted(book: Record, category: Value, search: Value): (w: bool)
    ensures !Truthy(category) && !Truthy(search) ==> w
    ensures w && Truthy(category) ==> IsPrimitive(category) && Get(book, "category") == category
    ensures w && Truthy(search) ==> search.Str? && Get(book, "title").Str?
  {
    && (!Truthy(category) || CategoryMatches(book, category))
    && (!Truthy(search) || (search.Str? && SearchMatch(book, ToLower(search.s)) == Some(true)))
  }

  /** The query is case-insensitive in its search text. */
  lemma {:induction false} SearchIgnoresCase(book: Record, category: Value, search: string)
    ensures Wanted(book, category, Str(search)) == Wanted(book, category, Str(ToLower(search)))
  {
    ToLowerIdempotent(search);
    assert Truthy(Str(search)) == Truthy(Str(ToLower(search))) by {
      assert |ToLower(search)| == |search|;
    }
  }

  /** A category given as an array or an object (`?category[]=x`) leaves nothing to list. */
  lemma {:induction false} CompoundCategoryMatchesNothing(book: Record, category: Value, search: Value)
    requires category.Arr? || category.Obj?
    ensures !Wanted(book, category, search)
  {
    assert Truthy(category);
  }

  /** A book titled "The Great Gatsby" is found by the search text "gatsby". */
  lemma GatsbyIsFound(book: Record)
    requires Get(book, "title") == Str("The Great Gatsby")
    ensures Wanted(book, Undefined, Str("gatsby"))
  {
    var title := ToLower("The Great Gatsby");
    assert title == "the great gatsby";
    assert ToLower("gatsby") == "gatsby";
    assert title == "the great " + "gatsby" + "";
    IncludesPiece("the great ", "gatsby", "");
  }
}
