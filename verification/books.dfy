/** The book catalogue handlers: browsing (src/app/api/books/route.js GET), adding a book (POST),
    the caller's available books (src/app/api/books/my-books/route.js) and the ownership check
    (src/app/api/books/verify-ownership/route.js). Pattern matching (`$regex` with the `i`
    option) is the parameter `matches(pattern, text)`, and whether a pattern compiles at all is
    the parameter `valid(pattern)`. */
module Books {
  import opened Wrappers
  import opened Points
  import opened Models
  import opened Db
  import opened Sorting
  import opened Auth
  import opened Awards

  // ---------------------------------------------------------------- GET /api/books

  /** The query parameters: `None` for an absent one (and, for the numeric ones, one that does
      not parse). */
  datatype BookQuery = BookQuery(
    page: Option<int>,
    limit: Option<int>,
    search: Option<string>,
    genre: Option<string>,
    condition: Option<string>,
    location: Option<string>,
    excludeOwner: Option<Id>,
    minRating: Option<real>,
    sortOrder: Option<string>)

  /** The constraint on a listed book's owner. */
  datatype OwnerConstraint = AnyOwner | NotOwner(excluded: Id) | LocatedIn(pattern: string) | RatedAtLeast(min: real)

  /** The handler sets the owner constraint up to three times, each assignment replacing the
      previous one: the exclusion, then the location filter, then a positive minimum rating. The
      last one that applies is the one in force. */
  function OwnerConstraintOf(q: BookQuery): (c: OwnerConstraint)
    ensures q.minRating.Some? && q.minRating.value > 0.0 ==> c == RatedAtLeast(q.minRating.value)
    ensures !(q.minRating.Some? && q.minRating.value > 0.0) && Truthy(q.location) ==> c == LocatedIn(q.location.value)
    ensures c.NotOwner? <==>
      !(q.minRating.Some? && q.minRating.value > 0.0) && !Truthy(q.location) && q.excludeOwner.Some?
    ensures c.NotOwner? ==> c.excluded == q.excludeOwner.value
  {
    var c := if q.excludeOwner.Some? then NotOwner(q.excludeOwner.value) else AnyOwner;
    var c := if Truthy(q.location) then LocatedIn(q.location.value) else c;
    if q.minRating.Some? && q.minRating.value > 0.0 then RatedAtLeast(q.minRating.value) else c
  }

  predicate OwnerAllowed(users: seq<User>, c: OwnerConstraint, owner: Id, matches: (string, string) -> bool) {
    match c
    case AnyOwner => true
    case NotOwner(x) => owner != x
    case LocatedIn(pattern) => owner < |users| && matches(pattern, users[owner].location)
    case RatedAtLeast(m) => owner < |users| && users[owner].rating >= m
  }

  /** A book the browse query returns: available, with an allowed owner, matching the search in
      one of its four text fields, and with exactly the requested genre and condition. */
  predicate Browsable(users: seq<User>, q: BookQuery, matches: (string, string) -> bool, b: Book) {
    && b.status == Available
    && OwnerAllowed(users, OwnerConstraintOf(q), b.ownerId, matches)
    && (Truthy(q.search) ==>
          var p := q.search.value;
          matches(p, b.title) || matches(p, b.author) || matches(p, b.description) || matches(p, b.genre))
    && (Truthy(q.genre) ==> b.genre == q.genre.value)
    && (Truthy(q.condition) ==> b.condition == q.condition.value)
  }

  /** The patterns the query hands to the database compile: the search, and the location that
      the owner look-up matches (which runs even when a minimum rating later replaces it). */
  predicate PatternsValid(q: BookQuery, valid: string -> bool) {
    (Truthy(q.search) ==> valid(q.search.value)) && (Truthy(q.location) ==> valid(q.location.value))
  }

  datatype BrowseResult = BrowseResult(books: seq<Id>, pagination: Pagination)

  function Abs(x: int): nat {
    if x < 0 then -x else x
  }

  /** How many stored books the query matches. */
  function MatchingCount(s: Store, q: BookQuery, matches: (string, string) -> bool): nat {
    CountIf(s.books, (b: Book) => Browsable(s.users, q, matches, b))
  }

  /** Every matching book exactly once in creation order: newest first when the order is "desc"
      (the default), oldest first otherwise. */
  function Matching(s: Store, q: BookQuery, matches: (string, string) -> bool): (ordered: seq<Id>)
    ensures forall k :: 0 <= k < |ordered| ==> ordered[k] < |s.books| && Browsable(s.users, q, matches, s.books[ordered[k]])
    ensures forall i :: 0 <= i < |s.books| && Browsable(s.users, q, matches, s.books[i]) ==> i in ordered
    ensures |ordered| == MatchingCount(s, q, matches)
    ensures OrElse(q.sortOrder, "desc") == "desc" ==> forall a, b :: 0 <= a < b < |ordered| ==> ordered[a] > ordered[b]
    ensures OrElse(q.sortOrder, "desc") != "desc" ==> forall a, b :: 0 <= a < b < |ordered| ==> ordered[a] < ordered[b]
  {
    var p := (b: Book) => Browsable(s.users, q, matches, b);
    ListingsCount(s.books, p);
    if OrElse(q.sortOrder, "desc") == "desc" then NewestFirst(s.books, p) else OldestFirst(s.books, p)
  }

  /** `GET /api/books` (no authentication). The page defaults to 1 and the limit to 12; a
      search or location pattern that does not compile, or a negative skip, makes the query fail
      (500). Otherwise the reply lists one page of the
      matching books in creation order (newest first unless the order asks otherwise) and the
      pagination block counts every matching book. */
  function BrowseBooks(s: Store, q: BookQuery, matches: (string, string) -> bool, valid: string -> bool)
    : (r: Reply<BrowseResult>)
    ensures var page := ParamOr(q.page, 1);
            var limit := ParamOr(q.limit, 12);
            && (r.Failure? <==> !PatternsValid(q, valid) || (page - 1) * limit < 0)
            && (r.Failure? ==> r == Failure(500, "Internal server error"))
    ensures r.Success? ==>
      var page := ParamOr(q.page, 1);
      var limit := ParamOr(q.limit, 12);
      var listed := r.body.books;
      var total := MatchingCount(s, q, matches);
      && r.status == 200
      && listed == Window(Matching(s, q, matches), (page - 1) * limit, Abs(limit))
      && (forall k :: 0 <= k < |listed| ==> listed[k] < |s.books| && Browsable(s.users, q, matches, s.books[listed[k]]))
      && |listed| == (if (page - 1) * limit >= total then 0 else Min(Abs(limit), total - (page - 1) * limit))
      && (OrElse(q.sortOrder, "desc") == "desc" ==> forall a, b :: 0 <= a < b < |listed| ==> listed[a] > listed[b])
      && (OrElse(q.sortOrder, "desc") != "desc" ==> forall a, b :: 0 <= a < b < |listed| ==> listed[a] < listed[b])
      && r.body.pagination == Paginate(page, limit, total)
  {
    var page := ParamOr(q.page, 1);
    var limit := ParamOr(q.limit, 12);
    var skip := (page - 1) * limit;
    if !PatternsValid(q, valid) || skip < 0 then Failure(500, "Internal server error")
    else
      var ordered := Matching(s, q, matches);
      Success(200, BrowseResult(Window(ordered, skip, Abs(limit)), Paginate(page, limit, |ordered|)))
  }

  function Min(a: int, b: int): int {
    if a < b then a else b
  }

  /** The last owner constraint wins: with a positive minimum rating, the excluded owner's own
      books are listed again whenever that owner's rating is high enough. */
  lemma MinRatingOverridesExclusion(users: seq<User>, q: BookQuery, matches: (string, string) -> bool, b: Book)
    requires q.excludeOwner == Some(b.ownerId)
    requires q.minRating.Some? && q.minRating.value > 0.0
    requires b.ownerId < |users| && users[b.ownerId].rating >= q.minRating.value
    requires b.status == Available && !Truthy(q.search) && !Truthy(q.genre) && !Truthy(q.condition)
    ensures Browsable(users, q, matches, b)
  {
  }

  // ---------------------------------------------------------------- POST /api/books

  /** The fields of a new book as the request body gives them. */
  datatype BookForm = BookForm(
    title: Option<string>,
    author: Option<string>,
    genre: Option<string>,
    condition: Option<string>,
    coverImage: Option<string>,
    description: Option<string>,
    isbn: Option<string>,
    publishedYear: Option<int>,
    language: Option<string>,
    pageCount: Option<int>,
    tags: Option<seq<string>>)

  predicate HasRequiredFields(f: BookForm) {
    Truthy(f.title) && Truthy(f.author) && Truthy(f.genre) && Truthy(f.condition)
    && Truthy(f.coverImage) && Truthy(f.description)
  }

  /** `x || null` on a numeric field: zero counts as absent. */
  function NonZero(x: Option<int>): (r: Option<int>)
    ensures r.Some? <==> x.Some? && x.value != 0
    ensures r.Some? ==> r == x
  {
    if x.Some? && x.value != 0 then x else None
  }

  /** The book the handler builds for `owner`: the given fields, the documented defaults for the
      optional ones, and the schema defaults (available, no views, active). */
  function BookFromForm(f: BookForm, owner: Id): (b: Book)
    requires HasRequiredFields(f)
    ensures b.ownerId == owner && b.status == Available && b.views == 0 && b.isActive
    ensures b.title == f.title.value && b.author == f.author.value && b.genre == f.genre.value
    ensures b.condition == f.condition.value && b.coverImage == f.coverImage.value
    ensures b.description == f.description.value
    ensures b.isbn == (if Truthy(f.isbn) then f.isbn.value else "")
    ensures b.language == (if Truthy(f.language) then f.language.value else "English")
    ensures b.publishedYear == NonZero(f.publishedYear) && b.pageCount == NonZero(f.pageCount)
    ensures b.tags == f.tags.GetOr([])
  {
    Book(f.title.value, f.author.value, f.genre.value, f.condition.value, f.coverImage.value,
         f.description.value, owner, Available, OrElse(f.isbn, ""), NonZero(f.publishedYear),
         OrElse(f.language, "English"), NonZero(f.pageCount), f.tags.GetOr([]), 0, true)
  }

  /** `$push` of book `id` onto the owner's list, through an update that does not ask for the new
      document: the hook repairs a stale level from the unchanged points, so the owner ends
      level-consistent. An owner who is not stored changes nothing. */
  function PushOwnedBook(users: seq<User>, me: Id, id: Id): (r: seq<User>)
    ensures |r| == |users|
    ensures forall j :: 0 <= j < |users| && j != me ==> r[j] == users[j]
    ensures me < |users| ==>
      && r[me].books == users[me].books + [id]
      && LevelConsistent(r[me])
      && r[me].(books := users[me].books, level := users[me].level) == users[me]
  {
    if me < |users| then UpdateUser(users, me, users[me].(books := users[me].books + [id]), false) else users
  }

  /** The writes of a successful add: the book is appended, its id pushed onto the owner's list
      and the owner awarded the book reward. Only the owner's books, points and level change, and
      the level ends consistent with the new points. */
  function StoreBook(s: Store, me: Id, book: Book): (t: Store)
    ensures t.books == s.books + [book]
    ensures |t.users| == |s.users|
    ensures me < |s.users| ==>
      && t.users[me].books == s.users[me].books + [|s.books|]
      && t.users[me].points == Some(PointsOrZero(s.users[me]) + ADD_BOOK)
      && LevelConsistent(t.users[me])
      && t.users[me].(books := s.users[me].books, points := s.users[me].points, level := s.users[me].level) == s.users[me]
    ensures forall j :: 0 <= j < |s.users| && j != me ==> t.users[j] == s.users[j]
    ensures t == s.(books := t.books, users := t.users)
  {
    var s1 := s.(books := s.books + [book], users := PushOwnedBook(s.users, me, |s.books|));
    var (_, s2) := AddPointsToUser(s1, me, ADD_BOOK, "Book added");
    assert AddPointsForBook(s1, me).1 == s2;
    AddPointsForBook(s1, me).1
  }

  /** `POST /api/books`: Bearer authentication, then the six required fields (400). The book is
      saved (its validators can refuse it, giving 500 with nothing stored); then its id is pushed
      onto the owner's book list and the owner is awarded the book reward. A token whose user is
      not stored still adds the book, with no owner record to update. `currentYear` is the year
      the schema's upper bound on `publishedYear` was fixed at. */
  function AddBook(s: Store, header: Option<string>, tokens: map<string, Id>, f: BookForm, currentYear: int)
    : (r: (Reply<Id>, Store))
    ensures var c := BearerCaller(header, tokens, "Authentication required");
            && (c.Denied? ==> r == (Failure(c.status, c.error), s))
            && (c.Caller? && !HasRequiredFields(f) ==>
                  r == (Failure(400, "Title, author, genre, condition, cover image, and description are required"), s))
            && (c.Caller? && HasRequiredFields(f) && !ValidBook(BookFromForm(f, c.id), currentYear) ==>
                  r == (Failure(500, "Internal server error"), s))
            && (r.0.Success? <==> c.Caller? && HasRequiredFields(f) && ValidBook(BookFromForm(f, c.id), currentYear))
    ensures r.0.Success? ==>
      var me := BearerCaller(header, tokens, "Authentication required").id;
      && r.0 == Success(201, |s.books|)
      && r.1.books == s.books + [BookFromForm(f, me)]
      && |r.1.users| == |s.users|
      && (me < |s.users| ==>
            && r.1.users[me].books == s.users[me].books + [|s.books|]
            && r.1.users[me].points == Some(PointsOrZero(s.users[me]) + ADD_BOOK)
            && LevelConsistent(r.1.users[me])
            && r.1.users[me].(books := s.users[me].books, points := s.users[me].points, level := s.users[me].level) == s.users[me])
      && (forall j :: 0 <= j < |s.users| && j != me ==> r.1.users[j] == s.users[j])
      && r.1 == s.(books := r.1.books, users := r.1.users)
  {
    match BearerCaller(header, tokens, "Authentication required")
    case Denied(status, error) => (Failure(status, error), s)
    case Caller(me) =>
      if !HasRequiredFields(f) then
        (Failure(400, "Title, author, genre, condition, cover image, and description are required"), s)
      else
        var book := BookFromForm(f, me);
        if !ValidBook(book, currentYear) then (Failure(500, "Internal server error"), s)
        else
          var id: Id := |s.books|;
          (Success(201, id), StoreBook(s, me, book))
  }

  // ---------------------------------------------------------------- my-books

  /** `GET /api/books/my-books`: session first, then the Bearer token; exactly the caller's books
      that are still available, newest first. Nothing is written. */
  function MyBooks(s: Store, cred: Credentials, tokens: map<string, Id>): (r: Reply<seq<Id>>)
    ensures var c := SessionFirstCaller(s.users, cred, tokens, "Authentication required");
            && (c.Denied? ==> r == Failure(c.status, c.error))
            && (c.Caller? ==> r.Success? && r.status == 200)
    ensures r.Success? ==>
      var me := SessionFirstCaller(s.users, cred, tokens, "Authentication required").id;
      && (forall k :: 0 <= k < |r.body| ==>
            r.body[k] < |s.books| && s.books[r.body[k]].ownerId == me && s.books[r.body[k]].status == Available)
      && (forall i :: 0 <= i < |s.books| && s.books[i].ownerId == me && s.books[i].status == Available ==> i in r.body)
      && (forall a, b :: 0 <= a < b < |r.body| ==> r.body[a] > r.body[b])
  {
    match SessionFirstCaller(s.users, cred, tokens, "Authentication required")
    case Denied(status, error) => Failure(status, error)
    case Caller(me) => Success(200, NewestFirst(s.books, (b: Book) => b.ownerId == me && b.status == Available))
  }

  // ---------------------------------------------------------------- verify-ownership

  /** The ownership report: the book's owner, whether that owner's book list holds the book, and
      the overall verdict. */
  datatype OwnershipReport = OwnershipReport(ownerId: Id, hasBookInArray: bool, ownershipCorrect: bool)

  /** `POST /api/books/verify-ownership`: Bearer authentication, 404 for an unknown book, and a
      failure (500) when the book's owner is not stored. The owner is found through the book, so
      the id comparison always holds and the verdict is exactly whether the owner lists the book.
      Nothing is written. */
  function VerifyOwnership(s: Store, header: Option<string>, tokens: map<string, Id>, bookId: Option<Id>)
    : (r: Reply<OwnershipReport>)
    ensures var c := BearerCaller(header, tokens, "Authentication required");
            && (c.Denied? ==> r == Failure(c.status, c.error))
            && (c.Caller? && (bookId.None? || bookId.value >= |s.books|) ==> r == Failure(404, "Book not found"))
            && (c.Caller? && bookId.Some? && bookId.value < |s.books| && s.books[bookId.value].ownerId >= |s.users| ==>
                  r == Failure(500, "Internal server error"))
    ensures r.Success? ==>
      var b := bookId.value;
      && b < |s.books| && r.body.ownerId == s.books[b].ownerId < |s.users|
      && (r.body.ownershipCorrect <==> b in s.users[s.books[b].ownerId].books)
      && r.body.hasBookInArray == r.body.ownershipCorrect
  {
    match BearerCaller(header, tokens, "Authentication required")
    case Denied(status, error) => Failure(status, error)
    case Caller(_) =>
      if bookId.None? || bookId.value >= |s.books| then Failure(404, "Book not found")
      else
        var book := s.books[bookId.value];
        if book.ownerId >= |s.users| then Failure(500, "Internal server error")
        else
          var owner := s.users[book.ownerId];
          var isInOwnerBooks := bookId.value in owner.books;
          Success(200, OwnershipReport(book.ownerId, isInOwnerBooks, book.ownerId == book.ownerId && isInOwnerBooks))
  }

  /** A book added by a stored user passes the ownership check afterwards. */
  lemma AddedBookOwnershipCorrect(s: Store, header: Option<string>, tokens: map<string, Id>, f: BookForm, currentYear: int)
    requires AddBook(s, header, tokens, f, currentYear).0.Success?
    requires BearerCaller(header, tokens, "Authentication required").id < |s.users|
    ensures var t := AddBook(s, header, tokens, f, currentYear).1;
            var r := VerifyOwnership(t, header, tokens, Some(|s.books|));
            r.Success? && r.body.ownershipCorrect
  {
    var me := BearerCaller(header, tokens, "Authentication required").id;
    var t := AddBook(s, header, tokens, f, currentYear).1;
    assert t.books[|s.books|].ownerId == me;
    assert t.users[me].books[|s.users[me].books|] == |s.books|;
  }
}
