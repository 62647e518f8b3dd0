/** The exchange request handlers of src/app/api/exchanges/route.js: listing the caller's exchanges
    by role and status, and creating a request for a book. Both authenticate by Bearer token only;
    there is no session path. */
module Exchanges {
  import opened Wrappers
  import opened Models
  import opened Db
  import opened Auth

  // ---------------------------------------------------------------- GET

  /** Which side of an exchange the caller must be on. */
  datatype Role = Sent | Received | Either

  /** The `type` parameter: only the exact names "sent" and "received" select one side. */
  function ParseRole(param: Option<string>): (r: Role)
    ensures r == Sent <==> param == Some("sent")
    ensures r == Received <==> param == Some("received")
  {
    if param == Some("sent") then Sent else if param == Some("received") then Received else Either
  }

  /** The `status` parameter: absent, empty or "all" means no status filter. */
  function StatusFilter(param: Option<string>): (f: Option<string>)
    ensures f.None? <==> !Truthy(param) || param.value == "all"
    ensures f.Some? ==> f == param
  {
    if Truthy(param) && param.value != "all" then param else None
  }

  predicate Involves(e: Exchange, caller: Id, role: Role) {
    match role
    case Sent => e.requesterId == caller
    case Received => e.ownerId == caller
    case Either => e.requesterId == caller || e.ownerId == caller
  }

  /** An exchange the listing returns for `caller`. */
  predicate Listed(e: Exchange, caller: Id, role: Role, status: Option<string>) {
    Involves(e, caller, role) && (status.None? || StatusName(e.status) == status.value)
  }

  /** `GET /api/exchanges`: exactly the caller's exchanges on the selected side with the selected
      status, newest first. */
  function ListExchanges(s: Store, header: Option<string>, tokens: map<string, Id>,
                         typeParam: Option<string>, statusParam: Option<string>): (r: Reply<seq<Id>>)
    ensures var c := BearerCaller(header, tokens, "Authentication required");
            && (c.Denied? ==> r == Failure(c.status, c.error))
            && (c.Caller? ==> r.Success? && r.status == 200)
    ensures r.Success? ==>
      var caller := BearerCaller(header, tokens, "Authentication required").id;
      var role := ParseRole(typeParam);
      var status := StatusFilter(statusParam);
      && (forall k :: 0 <= k < |r.body| ==>
            r.body[k] < |s.exchanges| && Listed(s.exchanges[r.body[k]], caller, role, status))
      && (forall i :: 0 <= i < |s.exchanges| && Listed(s.exchanges[i], caller, role, status) ==> i in r.body)
      && (forall a, b :: 0 <= a < b < |r.body| ==> r.body[a] > r.body[b])
  {
    match BearerCaller(header, tokens, "Authentication required")
    case Denied(status, error) => Failure(status, error)
    case Caller(me) =>
      var role := ParseRole(typeParam);
      var status := StatusFilter(statusParam);
      Success(200, NewestFirst(s.exchanges, e => Listed(e, me, role, status)))
  }

  /** Listing both sides is listing the sent ones together with the received ones. */
  lemma EitherIsSentOrReceived(e: Exchange, caller: Id, status: Option<string>)
    ensures Listed(e, caller, Either, status) <==> Listed(e, caller, Sent, status) || Listed(e, caller, Received, status)
  {
  }

  // ---------------------------------------------------------------- POST

  /** The request body: the book asked for and an optional message. */
  datatype ExchangeRequest = ExchangeRequest(bookId: Option<Id>, requestMessage: Option<string>)

  /** The requester already has a pending request for the book. */
  predicate PendingRequestExists(exchanges: seq<Exchange>, requester: Id, book: Id) {
    exists i :: 0 <= i < |exchanges| && exchanges[i].bookId == book && exchanges[i].requesterId == requester
                                     && exchanges[i].status == Pending
  }

  const RequestMessagePrefix: string := "Someone wants to exchange your book \""

  /** The notification the owner receives about a new request for the book titled `title`. It
      passes the schema's validators exactly when the quoted title keeps the message within
      300 characters. */
  function RequestNotification(owner: Id, title: string, exchangeId: Id): (n: Notification)
    ensures n.userId == owner && n.kind == "exchange_request" && !n.isRead
    ensures n.relatedId == Some(exchangeId) && n.relatedModel == Some("Exchange")
    ensures ValidNotification(n) <==> |title| <= 262
  {
    NewNotification(owner, "exchange_request", "New Exchange Request",
      RequestMessagePrefix + title + "\"", Some(exchangeId), Some("Exchange"))
  }

  /** `POST /api/exchanges`. The guards run in order: the caller's token, the caller's record
      (404), the book id (400), the book (404), not the caller's own book (400), the book is
      available (400), no pending request by the caller for it (400). The new exchange is then
      saved (its validators can refuse an over-long message, giving 500), the book is marked as
      exchanging and the owner's notification is saved; when that save is refused the reply is
      500 but the exchange and the book change stay. */
  function RequestExchange(s: Store, header: Option<string>, tokens: map<string, Id>, req: ExchangeRequest)
    : (r: (Reply<Id>, Store))
    ensures var c := BearerCaller(header, tokens, "Authentication required");
            && (c.Denied? ==> r == (Failure(c.status, c.error), s))
            && (c.Caller? && c.id >= |s.users| ==> r == (Failure(404, "User not found"), s))
            && (c.Caller? && c.id < |s.users| && req.bookId.None? ==>
                  r == (Failure(400, "Book ID is required"), s))
            && (c.Caller? && c.id < |s.users| && req.bookId.Some? && req.bookId.value >= |s.books| ==>
                  r == (Failure(404, "Book not found"), s))
    ensures var c := BearerCaller(header, tokens, "Authentication required");
            c.Caller? && c.id < |s.users| && req.bookId.Some? && req.bookId.value < |s.books| ==>
              var book := s.books[req.bookId.value];
              && (book.ownerId == c.id ==> r == (Failure(400, "You cannot request your own book"), s))
              && (book.ownerId != c.id && book.status != Available ==>
                    r == (Failure(400, "Book is not available for exchange"), s))
              && (book.ownerId != c.id && book.status == Available
                  && PendingRequestExists(s.exchanges, c.id, req.bookId.value) ==>
                    r == (Failure(400, "You have already requested this book"), s))
    ensures var c := BearerCaller(header, tokens, "Authentication required");
            c.Caller? && c.id < |s.users| && req.bookId.Some? && req.bookId.value < |s.books|
            && s.books[req.bookId.value].ownerId != c.id && s.books[req.bookId.value].status == Available
            && !PendingRequestExists(s.exchanges, c.id, req.bookId.value) ==>
              r == PlaceRequest(s, c.id, req.bookId.value, OrElse(req.requestMessage, ""))
    ensures r.0.Success? ==> r.0.status == 201 && r.1 != s
    ensures r.0.Failure? && r.0.status != 500 ==> r.1 == s
  {
    match BearerCaller(header, tokens, "Authentication required")
    case Denied(status, error) => (Failure(status, error), s)
    case Caller(me) =>
      if me >= |s.users| then (Failure(404, "User not found"), s)
      else if req.bookId.None? then (Failure(400, "Book ID is required"), s)
      else
        var b := req.bookId.value;
        if b >= |s.books| then (Failure(404, "Book not found"), s)
        else
          var book := s.books[b];
          if book.ownerId == me then (Failure(400, "You cannot request your own book"), s)
          else if book.status != Available then (Failure(400, "Book is not available for exchange"), s)
          else if PendingRequestExists(s.exchanges, me, b) then (Failure(400, "You have already requested this book"), s)
          else PlaceRequest(s, me, b, OrElse(req.requestMessage, ""))
  }

  /** The effects once every guard has passed: save the exchange (refused, with 500 and no
      change, when the message is over 500 characters), mark the book as exchanging, then save the
      owner's notification (refused, with 500 but the first two effects kept, when the title is
      over 262 characters). */
  function PlaceRequest(s: Store, me: Id, b: Id, message: string): (r: (Reply<Id>, Store))
    requires b < |s.books|
    ensures r.0.Success? <==> |message| <= 500 && |s.books[b].title| <= 262
    ensures r.0.Failure? ==> r.0 == Failure(500, "Internal server error")
    ensures r.0.Failure? && r.1 != s ==> |s.books[b].title| > 262
    ensures r.0.Success? ==>
      var book := s.books[b];
      && r.0 == Success(201, |s.exchanges|)
      && r.1.exchanges == s.exchanges + [NewExchange(me, book.ownerId, b, message)]
      && r.1.books == s.books[b := book.(status := Exchanging)]
      && r.1.notifications == s.notifications + [RequestNotification(book.ownerId, book.title, |s.exchanges|)]
      && r.1 == s.(exchanges := r.1.exchanges, books := r.1.books, notifications := r.1.notifications)
  {
    var book := s.books[b];
    var e := NewExchange(me, book.ownerId, b, message);
    if !ValidExchange(e) then (Failure(500, "Internal server error"), s)
    else
      var id := |s.exchanges|;
      var s1 := s.(exchanges := s.exchanges + [e], books := s.books[b := book.(status := Exchanging)]);
      match SaveNotification(s1, RequestNotification(book.ownerId, book.title, id))
      case Ok(s2) => (Success(201, id), s2)
      case Err(_) => (Failure(500, "Internal server error"), s1)
  }

  /** Every pending exchange names a stored book, and that book is no longer offered. */
  predicate PendingBooksWithdrawn(s: Store) {
    forall i :: 0 <= i < |s.exchanges| && s.exchanges[i].status == Pending ==>
      s.exchanges[i].bookId < |s.books| && s.books[s.exchanges[i].bookId].status != Available
  }

  /** Creating a request, successful or not, keeps pending requests on withdrawn books. */
  lemma RequestKeepsPendingBooksWithdrawn(s: Store, header: Option<string>, tokens: map<string, Id>, req: ExchangeRequest)
    requires PendingBooksWithdrawn(s)
    ensures PendingBooksWithdrawn(RequestExchange(s, header, tokens, req).1)
  {
    var t := RequestExchange(s, header, tokens, req).1;
    if t != s {
      var b := req.bookId.value;
      assert |t.exchanges| == |s.exchanges| + 1 && t.exchanges[|s.exchanges|].bookId == b;
      forall i | 0 <= i < |t.exchanges| && t.exchanges[i].status == Pending
        ensures t.exchanges[i].bookId < |t.books| && t.books[t.exchanges[i].bookId].status != Available
      {
        if i < |s.exchanges| {
          assert t.exchanges[i] == s.exchanges[i];
        }
      }
    }
  }

  /** A book that has just been requested cannot be requested again by anyone: it is no longer
      available. */
  lemma SecondRequestRefused(s: Store, header: Option<string>, tokens: map<string, Id>, req: ExchangeRequest,
                             header2: Option<string>)
    requires RequestExchange(s, header, tokens, req).0.Success?
    requires BearerCaller(header2, tokens, "Authentication required").Caller?
    requires BearerCaller(header2, tokens, "Authentication required").id < |s.users|
    ensures RequestExchange(RequestExchange(s, header, tokens, req).1, header2, tokens, req).0.Failure?
  {
  }
}
