/** The notification inbox of src/app/api/notifications/route.js: the caller's latest
    notifications, and marking one or all of them as read. Both resolve the caller session first,
    then by Bearer token. */
module Inbox {
  import opened Wrappers
  import opened Models
  import opened Db
  import opened Sorting
  import opened Auth

  /** The inbox holds at most this many notifications. */
  const InboxSize: nat := 20

  predicate Addressed(n: Notification, me: Id) {
    n.userId == me
  }

  /** `GET /api/notifications`: the caller's newest notifications, at most twenty, newest first.
      Every notification of the caller left out is older than every one listed. */
  function GetNotifications(s: Store, cred: Credentials, tokens: map<string, Id>): (r: Reply<seq<Id>>)
    ensures var c := SessionFirstCaller(s.users, cred, tokens, "Authentication required");
            && (c.Denied? ==> r == Failure(c.status, c.error))
            && (c.Caller? ==> r.Success? && r.status == 200)
    ensures r.Success? ==>
      var me := SessionFirstCaller(s.users, cred, tokens, "Authentication required").id;
      var mine := CountIf(s.notifications, (n: Notification) => Addressed(n, me));
      && |r.body| == (if mine < InboxSize then mine else InboxSize)
      && (forall k :: 0 <= k < |r.body| ==> r.body[k] < |s.notifications| && Addressed(s.notifications[r.body[k]], me))
      && (forall a, b :: 0 <= a < b < |r.body| ==> r.body[a] > r.body[b])
      && (forall i :: 0 <= i < |s.notifications| && Addressed(s.notifications[i], me) && i !in r.body ==>
            forall k :: 0 <= k < |r.body| ==> i < r.body[k])
  {
    match SessionFirstCaller(s.users, cred, tokens, "Authentication required")
    case Denied(status, error) => Failure(status, error)
    case Caller(me) =>
      var p := (n: Notification) => Addressed(n, me);
      var all := NewestFirst(s.notifications, p);
      ListingsCount(s.notifications, p);
      var page := Window(all, 0, InboxSize);
      NewestPrefix(s.notifications, p, all, page);
      Success(200, page)
  }

  /** A prefix of a newest-first listing holds the newest members: anything listed later, or not
      listed, is older than everything in the prefix. */
  lemma NewestPrefix(ns: seq<Notification>, p: Notification -> bool, all: seq<Id>, page: seq<Id>)
    requires forall k :: 0 <= k < |all| ==> all[k] < |ns| && p(ns[all[k]])
    requires forall i :: 0 <= i < |ns| && p(ns[i]) ==> i in all
    requires forall a, b :: 0 <= a < b < |all| ==> all[a] > all[b]
    requires |page| <= |all| && page == all[..|page|]
    ensures forall i :: 0 <= i < |ns| && p(ns[i]) && i !in page ==> forall k :: 0 <= k < |page| ==> i < page[k]
  {
    forall i, k | 0 <= i < |ns| && p(ns[i]) && i !in page && 0 <= k < |page|
      ensures i < page[k]
    {
      var j :| 0 <= j < |all| && all[j] == i;
      assert all[k] == page[k];
    }
  }

  /** The request body of the update: the notification to mark, if any. */
  datatype MarkRequest = MarkRequest(notificationId: Option<Id>)

  /** Every notification of `me` marked read, the others as they were. */
  function MarkAllRead(ns: seq<Notification>, me: Id): (r: seq<Notification>)
    ensures |r| == |ns|
    ensures forall i :: 0 <= i < |ns| ==>
      if Addressed(ns[i], me) then r[i] == ns[i].(isRead := true) else r[i] == ns[i]
  {
    seq(|ns|, i requires 0 <= i < |ns| => if Addressed(ns[i], me) then ns[i].(isRead := true) else ns[i])
  }

  /** `PUT /api/notifications`. With an id, that notification is marked read, whoever it is
      addressed to; an unknown id changes nothing. Without one, every notification of the caller is
      marked read. The reply is the same either way. */
  function MarkRead(s: Store, cred: Credentials, tokens: map<string, Id>, req: MarkRequest): (r: (Reply<string>, Store))
    ensures var c := SessionFirstCaller(s.users, cred, tokens, "Authentication required");
            && (c.Denied? ==> r == (Failure(c.status, c.error), s))
            && (c.Caller? ==> r.0 == Success(200, "Notification(s) marked as read"))
    ensures r.1 == s.(notifications := r.1.notifications) && |r.1.notifications| == |s.notifications|
    ensures r.0.Success? && req.notificationId.Some? ==>
      var x := req.notificationId.value;
      && (x < |s.notifications| ==> r.1.notifications == s.notifications[x := s.notifications[x].(isRead := true)])
      && (x >= |s.notifications| ==> r.1 == s)
    ensures r.0.Success? && req.notificationId.None? ==>
      var me := SessionFirstCaller(s.users, cred, tokens, "Authentication required").id;
      forall i :: 0 <= i < |s.notifications| ==>
        && (Addressed(s.notifications[i], me) ==> r.1.notifications[i] == s.notifications[i].(isRead := true))
        && (!Addressed(s.notifications[i], me) ==> r.1.notifications[i] == s.notifications[i])
  {
    match SessionFirstCaller(s.users, cred, tokens, "Authentication required")
    case Denied(status, error) => (Failure(status, error), s)
    case Caller(me) =>
      var ns :=
        match req.notificationId
        case Some(x) => if x < |s.notifications| then s.notifications[x := s.notifications[x].(isRead := true)] else s.notifications
        case None => MarkAllRead(s.notifications, me);
      (Success(200, "Notification(s) marked as read"), s.(notifications := ns))
  }

  /** After marking everything read, the caller's inbox shows only read notifications, and marking
      everything again changes nothing. */
  lemma MarkAllEmptiesInbox(s: Store, cred: Credentials, tokens: map<string, Id>)
    requires SessionFirstCaller(s.users, cred, tokens, "Authentication required").Caller?
    ensures var t := MarkRead(s, cred, tokens, MarkRequest(None)).1;
            var inbox := GetNotifications(t, cred, tokens);
            && inbox.Success?
            && (forall k :: 0 <= k < |inbox.body| ==> t.notifications[inbox.body[k]].isRead)
            && MarkRead(t, cred, tokens, MarkRequest(None)).1 == t
  {
    var t := MarkRead(s, cred, tokens, MarkRequest(None)).1;
    assert t.users == s.users;
    var t2 := MarkRead(t, cred, tokens, MarkRequest(None)).1;
    assert t2.notifications == t.notifications;
  }

  /** Marking by id does not check whom the notification is addressed to: any caller can mark
      another user's notification as read. */
  lemma MarkByIdIgnoresAddressee(s: Store, cred: Credentials, tokens: map<string, Id>, x: Id)
    requires SessionFirstCaller(s.users, cred, tokens, "Authentication required").Caller?
    requires x < |s.notifications|
    ensures MarkRead(s, cred, tokens, MarkRequest(Some(x))).1.notifications[x].isRead
  {
  }
}
