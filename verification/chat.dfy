/** The exchange chat of src/app/api/chat/route.js: reading an exchange's messages and sending one.
    Both authenticate by Bearer token only, and both admit only the two parties of the exchange.
    No e-mail reaches the receiver: whenever the e-mail step would send, it first reads a
    `receiver` that is never defined, and the error this raises is caught, so the reply is
    unaffected. The step is left out. */
module Chat {
  import opened Wrappers
  import opened Models
  import opened Db
  import opened Auth

  /** The caller is the requester or the owner of the exchange. */
  predicate Party(e: Exchange, caller: Id) {
    e.requesterId == caller || e.ownerId == caller
  }

  /** A message the thread of exchange `x` shows: one of its messages that is not deleted. */
  predicate InThread(m: Message, x: Id) {
    m.exchangeId == x && !m.isDeleted
  }

  /** `GET /api/chat?exchangeId=…`: the token (401), the exchange id (400), the exchange (404), the
      caller a party to it (403); then exactly the thread's undeleted messages, oldest first. */
  function GetMessages(s: Store, header: Option<string>, tokens: map<string, Id>, exchangeId: Option<Id>)
    : (r: Reply<seq<Id>>)
    ensures var c := BearerCaller(header, tokens, "Authentication required");
            && (c.Denied? ==> r == Failure(c.status, c.error))
            && (c.Caller? && exchangeId.None? ==> r == Failure(400, "Exchange ID is required"))
            && (c.Caller? && exchangeId.Some? && exchangeId.value >= |s.exchanges| ==>
                  r == Failure(404, "Exchange not found"))
            && (c.Caller? && exchangeId.Some? && exchangeId.value < |s.exchanges| ==>
                  (r.Success? <==> Party(s.exchanges[exchangeId.value], c.id)))
            && (r.Failure? && c.Caller? && exchangeId.Some? && exchangeId.value < |s.exchanges| ==>
                  r == Failure(403, "Access denied"))
    ensures r.Success? ==>
      var x := exchangeId.value;
      && r.status == 200
      && (forall k :: 0 <= k < |r.body| ==> r.body[k] < |s.messages| && InThread(s.messages[r.body[k]], x))
      && (forall i :: 0 <= i < |s.messages| && InThread(s.messages[i], x) ==> i in r.body)
      && (forall a, b :: 0 <= a < b < |r.body| ==> r.body[a] < r.body[b])
  {
    match BearerCaller(header, tokens, "Authentication required")
    case Denied(status, error) => Failure(status, error)
    case Caller(me) =>
      if exchangeId.None? then Failure(400, "Exchange ID is required")
      else
        var x := exchangeId.value;
        if x >= |s.exchanges| then Failure(404, "Exchange not found")
        else if !Party(s.exchanges[x], me) then Failure(403, "Access denied")
        else Success(200, OldestFirst(s.messages, (m: Message) => InThread(m, x)))
  }

  /** The request body of a new message; the type defaults to "text" when absent. */
  datatype MessageRequest = MessageRequest(
    exchangeId: Option<Id>,
    content: Option<string>,
    messageType: Option<string>,
    imageUrl: Option<string>)

  /** The other party of the exchange: the owner when the caller requested it, else the requester. */
  function Counterpart(e: Exchange, caller: Id): (other: Id)
    requires Party(e, caller)
    ensures Party(e, other)
    ensures e.requesterId != e.ownerId ==> other != caller
  {
    if e.requesterId == caller then e.ownerId else e.requesterId
  }

  /** The message document built for the caller: the content defaults to the empty string and a
      missing image URL is stored as null. `None` when the type is outside the schema's enum,
      which makes the save fail. */
  function BuildMessage(me: Id, receiver: Id, x: Id, req: MessageRequest): (m: Option<Message>)
    ensures m.Some? <==> ParseMessageType(req.messageType.GetOr("text")).Some?
    ensures m.Some? ==>
      && m.value.senderId == me && m.value.receiverId == receiver && m.value.exchangeId == x
      && m.value.content == Some(OrElse(req.content, ""))
      && m.value.imageUrl == (if Truthy(req.imageUrl) then req.imageUrl else None)
      && !m.value.isRead && !m.value.isDeleted
  {
    match ParseMessageType(req.messageType.GetOr("text"))
    case None => None
    case Some(t) =>
      Some(Message(me, receiver, x, Some(OrElse(req.content, "")), t,
                   if Truthy(req.imageUrl) then req.imageUrl else None, false, false))
  }

  /** `POST /api/chat`. The guards run in order: the token (401), the caller's record (404), the
      exchange id (400), content for a text message (400), an image URL for an image message
      (400), the exchange (404), the caller a party to it (403). The message is then saved (a type
      outside the enum or content over 1000 characters fails with 500 and nothing stored), and its
      id is appended to the exchange's message list. */
  function SendMessage(s: Store, header: Option<string>, tokens: map<string, Id>, req: MessageRequest)
    : (r: (Reply<Id>, Store))
    ensures var c := BearerCaller(header, tokens, "Authentication required");
            var kind := req.messageType.GetOr("text");
            && (c.Denied? ==> r == (Failure(c.status, c.error), s))
            && (c.Caller? && c.id >= |s.users| ==> r == (Failure(404, "User not found"), s))
            && (c.Caller? && c.id < |s.users| && req.exchangeId.None? ==>
                  r == (Failure(400, "Exchange ID is required"), s))
            && (c.Caller? && c.id < |s.users| && req.exchangeId.Some? && kind == "text" && !Truthy(req.content) ==>
                  r == (Failure(400, "Content is required for text messages"), s))
            && (c.Caller? && c.id < |s.users| && req.exchangeId.Some? && kind == "image" && !Truthy(req.imageUrl) ==>
                  r == (Failure(400, "Image URL is required for image messages"), s))
    ensures var c := BearerCaller(header, tokens, "Authentication required");
            var kind := req.messageType.GetOr("text");
            c.Caller? && c.id < |s.users| && req.exchangeId.Some?
            && !(kind == "text" && !Truthy(req.content)) && !(kind == "image" && !Truthy(req.imageUrl)) ==>
              var x := req.exchangeId.value;
              && (x >= |s.exchanges| ==> r == (Failure(404, "Exchange not found"), s))
              && (x < |s.exchanges| && !Party(s.exchanges[x], c.id) ==> r == (Failure(403, "Access denied"), s))
              && (x < |s.exchanges| && Party(s.exchanges[x], c.id) ==> r == PostMessage(s, c.id, x, req))
    ensures r.0.Failure? ==> r.1 == s
    ensures r.0.Success? ==>
      var me := BearerCaller(header, tokens, "Authentication required").id;
      var x := req.exchangeId.value;
      && me < |s.users| && x < |s.exchanges| && Party(s.exchanges[x], me)
      && r.0 == Success(201, |s.messages|)
      && |r.1.messages| == |s.messages| + 1 && r.1.messages[..|s.messages|] == s.messages
      && var m := r.1.messages[|s.messages|];
      && BuildMessage(me, Counterpart(s.exchanges[x], me), x, req) == Some(m)
      && ValidMessage(m)
      && r.1.exchanges == s.exchanges[x := s.exchanges[x].(messages := s.exchanges[x].messages + [|s.messages|])]
      && r.1 == s.(messages := r.1.messages, exchanges := r.1.exchanges)
  {
    match BearerCaller(header, tokens, "Authentication required")
    case Denied(status, error) => (Failure(status, error), s)
    case Caller(me) =>
      if me >= |s.users| then (Failure(404, "User not found"), s)
      else if req.exchangeId.None? then (Failure(400, "Exchange ID is required"), s)
      else
        var kind := req.messageType.GetOr("text");
        if kind == "text" && !Truthy(req.content) then (Failure(400, "Content is required for text messages"), s)
        else if kind == "image" && !Truthy(req.imageUrl) then (Failure(400, "Image URL is required for image messages"), s)
        else
          var x := req.exchangeId.value;
          if x >= |s.exchanges| then (Failure(404, "Exchange not found"), s)
          else if !Party(s.exchanges[x], me) then (Failure(403, "Access denied"), s)
          else PostMessage(s, me, x, req)
  }

  /** The effects once the guards have passed. */
  function PostMessage(s: Store, me: Id, x: Id, req: MessageRequest): (r: (Reply<Id>, Store))
    requires x < |s.exchanges| && Party(s.exchanges[x], me)
    ensures r.0.Failure? ==> r == (Failure(500, "Internal server error"), s)
    ensures r.0.Success? <==>
      var m := BuildMessage(me, Counterpart(s.exchanges[x], me), x, req);
      m.Some? && ValidMessage(m.value)
    ensures r.0.Success? ==>
      && r.0 == Success(201, |s.messages|)
      && r.1.messages == s.messages + [BuildMessage(me, Counterpart(s.exchanges[x], me), x, req).value]
      && r.1.exchanges == s.exchanges[x := s.exchanges[x].(messages := s.exchanges[x].messages + [|s.messages|])]
      && r.1 == s.(messages := r.1.messages, exchanges := r.1.exchanges)
  {
    var e := s.exchanges[x];
    match BuildMessage(me, Counterpart(e, me), x, req)
    case None => (Failure(500, "Internal server error"), s)
    case Some(m) =>
      if !ValidMessage(m) then (Failure(500, "Internal server error"), s)
      else
        var id := |s.messages|;
        (Success(201, id), s.(messages := s.messages + [m], exchanges := s.exchanges[x := e.(messages := e.messages + [id])]))
  }

  /** A message just sent shows up last in the sender's view of the thread, and the exchange's
      message list ends with it. */
  lemma SentMessageIsListedLast(s: Store, header: Option<string>, tokens: map<string, Id>, req: MessageRequest)
    requires SendMessage(s, header, tokens, req).0.Success?
    ensures var t := SendMessage(s, header, tokens, req).1;
            var r := GetMessages(t, header, tokens, req.exchangeId);
            && r.Success? && |r.body| > 0 && r.body[|r.body| - 1] == |s.messages|
            && t.exchanges[req.exchangeId.value].messages[|t.exchanges[req.exchangeId.value].messages| - 1] == |s.messages|
  {
    var t := SendMessage(s, header, tokens, req).1;
    var x := req.exchangeId.value;
    var r := GetMessages(t, header, tokens, req.exchangeId);
    var n := |s.messages|;
    assert t.exchanges[x].requesterId == s.exchanges[x].requesterId && t.exchanges[x].ownerId == s.exchanges[x].ownerId;
    assert InThread(t.messages[n], x);
    assert n in r.body;
  }

  /** A message is admitted whatever the exchange's status: the status of the exchange plays no
      part in the reply. */
  lemma AnyStatusAdmitsMessages(s: Store, header: Option<string>, tokens: map<string, Id>, req: MessageRequest,
                                status: ExchangeStatus)
    requires req.exchangeId.Some? && req.exchangeId.value < |s.exchanges|
    ensures var x := req.exchangeId.value;
            var s' := s.(exchanges := s.exchanges[x := s.exchanges[x].(status := status)]);
            SendMessage(s', header, tokens, req).0 == SendMessage(s, header, tokens, req).0
  {
  }

  /** The message goes to the other party: for an exchange between two different users the
      receiver is never the sender, and both are parties to it. */
  lemma MessageGoesToOtherParty(s: Store, header: Option<string>, tokens: map<string, Id>, req: MessageRequest)
    requires SendMessage(s, header, tokens, req).0.Success?
    ensures var t := SendMessage(s, header, tokens, req).1;
            var m := t.messages[|s.messages|];
            var e := s.exchanges[req.exchangeId.value];
            && Party(e, m.senderId) && Party(e, m.receiverId)
            && (e.requesterId != e.ownerId ==> m.senderId != m.receiverId)
  {
  }
}
