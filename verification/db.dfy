/** The document store: one sequence per collection, in insertion order. A document's id is its
    position, so `findById` is indexing, a new document's id is the collection's length, and
    "newest first" is reverse position order. The User model's post-update hook is applied after
    every `findByIdAndUpdate` on a user, as the Mongoose middleware does. */
module Db {
  import opened Wrappers
  import opened Points
  import opened Models
  import opened Sorting

  datatype Store = Store(
    users: seq<User>,
    books: seq<Book>,
    exchanges: seq<Exchange>,
    messages: seq<Message>,
    notifications: seq<Notification>,
    posts: seq<Post>)

  /** `User.findOne({ email })`: the first stored user with that e-mail. */
  function FindUserByEmail(users: seq<User>, email: string): (r: Option<Id>)
    ensures r.Some? ==> r.value < |users| && users[r.value].email == email
    ensures r.Some? ==> forall j :: 0 <= j < r.value ==> users[j].email != email
    ensures r.None? ==> forall j :: 0 <= j < |users| ==> users[j].email != email
  {
    if users == [] then None
    else if users[0].email == email then Some(0)
    else
      match FindUserByEmail(users[1..], email)
      case Some(i) => Some(i + 1)
      case None => None
  }

  /** The post-update hook: `stored` is the record after the update and `doc` the document the
      update returned. Loading `doc` applies the schema default of 0 points, so the hook always
      sees points; when `doc`'s level disagrees with them, the level is recomputed from `doc`'s
      points and saved onto the stored record; nothing else changes. */
  function PostUpdateHook(stored: User, doc: User): (r: User)
    ensures r.(level := stored.level) == stored
    ensures !LevelConsistent(doc) ==> r.level == CalculateLevel(PointsOrZero(doc))
    ensures LevelConsistent(doc) ==> r == stored
  {
    var points := PointsOrZero(doc);
    if doc.level != UserMethodLevel(points) then stored.(level := UserMethodLevel(points))
    else stored
  }

  /** `User.findByIdAndUpdate(id, update, { new: returnNew })` with `updated` the record the update
      produces. A missing id changes nothing. The hook sees the updated record when `returnNew`
      holds and the record as it was before the update otherwise. */
  function UpdateUser(users: seq<User>, id: Id, updated: User, returnNew: bool): (r: seq<User>)
    ensures |r| == |users|
    ensures forall j :: 0 <= j < |users| && j != id ==> r[j] == users[j]
    ensures id >= |users| ==> r == users
    ensures id < |users| ==> r[id].(level := updated.level) == updated
  {
    if id < |users| then
      var doc := if returnNew then updated else users[id];
      users[id := PostUpdateHook(updated, doc)]
    else users
  }

  /** With `{ new: true }` the hook leaves the record level-consistent. */
  lemma UpdateReturningNewIsConsistent(users: seq<User>, id: Id, updated: User)
    requires id < |users|
    ensures LevelConsistent(UpdateUser(users, id, updated, true)[id])
  {
  }

  /** Without `{ new: true }` the hook repairs from the stale pre-update document: if that document
      was inconsistent, its level, computed from the OLD points, overwrites the update's level. */
  lemma UpdateReturningOldLevel(users: seq<User>, id: Id, updated: User)
    requires id < |users|
    ensures var old_ := users[id];
            UpdateUser(users, id, updated, false)[id].level ==
              if !LevelConsistent(old_) then CalculateLevel(PointsOrZero(old_))
              else updated.level
  {
  }

  /** `notification.save()`: the schema validators run first; a failing document is not stored and
      the save throws. */
  function SaveNotification(s: Store, n: Notification): (r: Result<Store>)
    ensures r.Ok? <==> ValidNotification(n)
    ensures r.Ok? ==> r.value == s.(notifications := s.notifications + [n])
  {
    if ValidNotification(n) then Ok(s.(notifications := s.notifications + [n]))
    else Err("Notification validation failed")
  }

  /** Outcome of a save whose failure the caller catches and ignores. */
  function SaveIgnoringFailure(s: Store, r: Result<Store>): Store {
    if r.Ok? then r.value else s
  }

  /** `find(filter).sort({ createdAt: -1 })`: the ids of the documents satisfying `p`, newest
      first. */
  function NewestFirst<T>(s: seq<T>, p: T -> bool): (ids: seq<Id>)
    ensures forall k :: 0 <= k < |ids| ==> ids[k] < |s| && p(s[ids[k]])
    ensures forall i :: 0 <= i < |s| && p(s[i]) ==> i in ids
    ensures forall a, b :: 0 <= a < b < |ids| ==> ids[a] > ids[b]
  {
    if s == [] then []
    else
      var rest := NewestFirst(s[..|s| - 1], p);
      (if p(s[|s| - 1]) then [|s| - 1] else []) + rest
  }

  /** `find(filter).sort({ createdAt: 1 })`: the ids of the documents satisfying `p`, oldest
      first. */
  function OldestFirst<T>(s: seq<T>, p: T -> bool): (ids: seq<Id>)
    ensures forall k :: 0 <= k < |ids| ==> ids[k] < |s| && p(s[ids[k]])
    ensures forall i :: 0 <= i < |s| && p(s[i]) ==> i in ids
    ensures forall a, b :: 0 <= a < b < |ids| ==> ids[a] < ids[b]
  {
    if s == [] then []
    else
      var rest := OldestFirst(s[..|s| - 1], p);
      rest + (if p(s[|s| - 1]) then [|s| - 1] else [])
  }

  /** A listing in either order holds as many documents as satisfy the filter. */
  lemma {:induction false} ListingsCount<T>(s: seq<T>, p: T -> bool)
    ensures |NewestFirst(s, p)| == CountIf(s, p)
    ensures |OldestFirst(s, p)| == CountIf(s, p)
    decreases |s|
  {
    if s != [] {
      ListingsCount(s[..|s| - 1], p);
    }
  }
}
