/** The catalogue filters shared, line for line, by the member's book list
    (src/component/BooksListClient.tsx) and the admin's book table
    (src/component/BookManagementTableClient.tsx): the publisher choices and
    the search, publisher and availability predicates. */
module Catalogue {

  import opened Interfaces
  import opened Text
  import opened Seqs

  // --------------------------------------------------------- publishers

  /** Each element comes strictly before the next: sorted and without repeats. */
  predicate StrictlySorted(s: seq<string>) {
    forall i, j :: 0 <= i < j < |s| ==> StrLe(s[i], s[j]) && s[i] != s[j]
  }

  /** Adds `p` to a strictly sorted list unless it is already there. */
  function InsertDistinct(p: string, s: seq<string>): (r: seq<string>)
    requires StrictlySorted(s)
    ensures StrictlySorted(r)
    ensures forall x :: x in r <==> x in s || x == p
  {
    if s == [] then [p]
    else if p == s[0] then s
    else if StrLe(p, s[0]) then
      forall j | 0 <= j < |s| ensures StrLe(p, s[j]) && p != s[j] {
        if j > 0 {
          StrLeTransitive(p, s[0], s[j]);
          if p == s[j] { StrLeAntisymmetric(s[0], p); }
        }
      }
      [p] + s
    else
      StrLeTotal(p, s[0]);
      var t := InsertDistinct(p, s[1..]);
      assert s == [s[0]] + s[1..];
      forall j | 0 <= j < |t| ensures StrLe(s[0], t[j]) && s[0] != t[j] {
        if t[j] != p {
          assert t[j] in s[1..];
          var k :| 1 <= k < |s| && s[k] == t[j];
        }
      }
      [s[0]] + t
  }

  /** The publisher drop-down: the distinct publishers, sorted. */
  function Publishers(books: seq<Book>): (r: seq<string>)
    ensures StrictlySorted(r)
    decreases |books|
  {
    if books == [] then []
    else InsertDistinct(books[|books| - 1].publisher, Publishers(books[..|books| - 1]))
  }

  /** Every publisher of a book appears in the list exactly once, in sorted
      order, and nothing else does. */
  lemma {:induction false} PublishersSpec(books: seq<Book>)
    ensures forall p :: p in Publishers(books) <==> exists i :: 0 <= i < |books| && books[i].publisher == p
    decreases |books|
  {
    if books != [] {
      var init := books[..|books| - 1];
      PublishersSpec(init);
      forall p ensures p in Publishers(books) <==> exists i :: 0 <= i < |books| && books[i].publisher == p {
        if p in Publishers(init) {
          var i :| 0 <= i < |init| && init[i].publisher == p;
          assert books[i].publisher == p;
        }
        if exists i :: 0 <= i < |books| && books[i].publisher == p {
          var i :| 0 <= i < |books| && books[i].publisher == p;
          if i < |books| - 1 {
            assert init[i].publisher == p;
          }
        }
      }
    }
  }

  // ------------------------------------------------------------ filters

  datatype Availability = AnyAvailability | AvailableOnly | UnavailableOnly

  /** The three controls above the list. */
  datatype BookFilters = BookFilters(query: string, publisher: string, availability: Availability)

  /** What the screen starts with and what "clear filters" restores. */
  const Cleared := BookFilters("", "", AnyAvailability)

  /** Case-insensitive substring search over title, author, ISBN and publisher. */
  predicate MatchesSearch(b: Book, query: string) {
    query == "" ||
    var q := Lower(query);
    Contains(Lower(b.title), q) || Contains(Lower(b.author), q)
    || Contains(Lower(b.isbn), q) || Contains(Lower(b.publisher), q)
  }

  /** Exact, case-sensitive publisher match; `""` means any publisher. */
  predicate MatchesPublisher(b: Book, publisher: string) {
    publisher == "" || b.publisher == publisher
  }

  predicate MatchesAvailability(b: Book, a: Availability) {
    match a
    case AnyAvailability => true
    case AvailableOnly => b.availableAmount > 0
    case UnavailableOnly => b.availableAmount == 0
  }

  predicate Matches(b: Book, f: BookFilters) {
    MatchesSearch(b, f.query) && MatchesPublisher(b, f.publisher) && MatchesAvailability(b, f.availability)
  }

  function Keep(f: BookFilters): Book -> bool {
    b => Matches(b, f)
  }

  /** The books shown. */
  function Shown(books: seq<Book>, f: BookFilters): seq<Book> {
    Filter(books, Keep(f))
  }

  /** A book is shown iff it passes all three predicates, and the shown books
      keep the list's order. */
  lemma ShownSpec(books: seq<Book>, f: BookFilters)
    ensures IsSubsequence(Shown(books, f), books)
    ensures forall i :: 0 <= i < |books| ==> (books[i] in Shown(books, f) <==> Matches(books[i], f))
  {
    FilterIsSubsequence(books, Keep(f));
    FilterSpec(books, Keep(f));
    var shown := Shown(books, f);
    forall i | 0 <= i < |books| && books[i] in shown
      ensures Matches(books[i], f)
    {
      var j :| 0 <= j < |shown| && shown[j] == books[i];
    }
  }

  /** A book with a negative count is shown only when availability is "all". */
  lemma NegativeOnlyUnderAll(b: Book, f: BookFilters)
    requires b.availableAmount < 0
    ensures MatchesAvailability(b, f.availability) <==> f.availability == AnyAvailability
  {
  }

  /** After "clear filters" every book is shown, in order. */
  lemma ClearedShowsAll(books: seq<Book>)
    ensures Shown(books, Cleared) == books
  {
    FilterKeepsAll(books, Keep(Cleared));
  }

  /** The "clear filters" button appears only when some control is set. */
  predicate ClearVisible(f: BookFilters) {
    f.query != "" || f.publisher != "" || f.availability != AnyAvailability
  }

  /** The clear-filters button's handler. */
  class FilterControls {
    var filters: BookFilters

    constructor ()
      ensures filters == Cleared
    {
      filters := Cleared;
    }

    method Clear()
      modifies this
      ensures filters == Cleared && !ClearVisible(filters)
    {
      filters := BookFilters("", "", AnyAvailability);
    }
  }
}
