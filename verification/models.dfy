/** The document shapes of src/models: field types, enums, defaults and the bounds the schema
    validators enforce when a document is saved. A document's id is its position in its
    collection (see module Db). */
module Models {
  import opened Wrappers
  import opened Points

  type Id = nat

  // ---------------------------------------------------------------- User

  datatype RatingEntry = RatingEntry(raterId: Id, score: int, review: string)

  /** A user record. `points` and `totalExchanges` may be missing (`None`), which the handlers read
      as 0. Only the paths the User schema declares are fields: `exchangesCompleted`, which the
      user listing reads and writes, is not one of them. */
  datatype User = User(
    name: string,
    email: string,
    password: Option<string>,
    isGoogleUser: bool,
    location: string,
    profilePicture: string,
    bio: string,
    books: seq<Id>,
    rating: real,
    ratings: seq<RatingEntry>,
    totalExchanges: Option<int>,
    points: Option<int>,
    level: Level,
    isVerified: bool)

  /** `user.points || 0`. */
  function PointsOrZero(u: User): int {
    u.points.GetOr(0)
  }

  /** The cached level agrees with the points it is derived from. */
  predicate LevelConsistent(u: User) {
    u.level == CalculateLevel(PointsOrZero(u))
  }

  predicate ValidRatingEntry(r: RatingEntry) {
    1 <= r.score <= 5 && |r.review| <= 500
  }

  /** The User schema's validators: required fields, length bounds, the rating range and the
      password/location requirement that applies only to non-Google accounts. */
  predicate ValidUser(u: User) {
    && 0 < |u.name| <= 50
    && u.email != ""
    && (!u.isGoogleUser ==> Truthy(u.password))
    && (u.password.Some? ==> |u.password.value| >= 6)
    && (!u.isGoogleUser ==> u.location != "")
    && |u.bio| <= 500
    && 0.0 <= u.rating <= 5.0
    && forall k :: 0 <= k < |u.ratings| ==> ValidRatingEntry(u.ratings[k])
  }

  /** A user built from registration data, every other field at its schema default. */
  function NewUser(name: string, email: string, password: string, location: string, bio: string): (u: User)
    ensures u.points == Some(0) && u.level == Bronze && LevelConsistent(u)
    ensures u.rating == 0.0 && u.books == [] && u.ratings == [] && !u.isGoogleUser
    ensures u.name == name && u.email == email && u.password == Some(password)
    ensures u.location == location && u.bio == bio
  {
    User(name, email, Some(password), false, location, "", bio, [], 0.0, [], Some(0), Some(0), Bronze, false)
  }

  /** `toJSON`: the user with its password removed; nothing else changes. */
  function ToJson(u: User): (j: User)
    ensures j.password.None?
    ensures j.(password := u.password) == u
  {
    u.(password := None)
  }

  /** The pre-save hook: when the points were modified, the level is recomputed from them. */
  function PreSave(u: User, pointsModified: bool): (r: User)
    ensures pointsModified ==> LevelConsistent(r)
    ensures !pointsModified ==> r == u
    ensures r.(level := u.level) == u
  {
    if pointsModified then u.(level := UserMethodLevel(PointsOrZero(u))) else u
  }

  // ---------------------------------------------------------------- Book

  datatype BookStatus = Available | Exchanging | Traded

  const Genres: seq<string> := [
    "Fiction", "Non-Fiction", "Mystery", "Romance", "Science Fiction",
    "Fantasy", "Thriller", "Biography", "History", "Self-Help",
    "Business", "Health", "Travel", "Cooking", "Art", "Poetry",
    "Drama", "Comedy", "Horror", "Adventure", "Children", "Young Adult", "Other"]

  const Conditions: seq<string> := ["New", "Like New", "Good", "Fair", "Poor"]

  datatype Book = Book(
    title: string,
    author: string,
    genre: string,
    condition: string,
    coverImage: string,
    description: string,
    ownerId: Id,
    status: BookStatus,
    isbn: string,
    publishedYear: Option<int>,
    language: string,
    pageCount: Option<int>,
    tags: seq<string>,
    views: int,
    isActive: bool)

  /** The Book schema's validators; `currentYear` is the year at which the schema was loaded. */
  predicate ValidBook(b: Book, currentYear: int) {
    && 0 < |b.title| <= 200
    && 0 < |b.author| <= 100
    && b.genre in Genres
    && b.condition in Conditions
    && b.coverImage != ""
    && 0 < |b.description| <= 1000
    && (b.publishedYear.Some? ==> 1000 <= b.publishedYear.value <= currentYear)
    && (b.pageCount.Some? ==> b.pageCount.value >= 1)
  }

  // ---------------------------------------------------------------- Exchange

  datatype ExchangeStatus = Pending | Approved | Completed | Canceled | Rejected

  function StatusName(s: ExchangeStatus): string {
    match s
    case Pending => "pending"
    case Approved => "approved"
    case Completed => "completed"
    case Canceled => "canceled"
    case Rejected => "rejected"
  }

  /** An exchange request. The schema declares `rating` twice; the later declaration, a pair of
      per-party scores, is the one that takes effect, so only that one is modelled. */
  datatype Exchange = Exchange(
    requesterId: Id,
    ownerId: Id,
    bookId: Id,
    status: ExchangeStatus,
    requestMessage: string,
    messages: seq<Id>,
    requesterRating: Option<int>,
    ownerRating: Option<int>,
    requesterReview: Option<string>,
    ownerReview: Option<string>,
    isActive: bool)

  predicate ValidExchange(e: Exchange) {
    && |e.requestMessage| <= 500
    && (e.requesterRating.Some? ==> 1 <= e.requesterRating.value <= 5)
    && (e.ownerRating.Some? ==> 1 <= e.ownerRating.value <= 5)
    && (e.requesterReview.Some? ==> |e.requesterReview.value| <= 500)
    && (e.ownerReview.Some? ==> |e.ownerReview.value| <= 500)
  }

  /** A new exchange request with the schema defaults: pending, active, no messages, no ratings. */
  function NewExchange(requester: Id, owner: Id, book: Id, requestMessage: string): (e: Exchange)
    ensures e.status == Pending && e.isActive && e.messages == []
    ensures e.requesterId == requester && e.ownerId == owner && e.bookId == book
    ensures e.requestMessage == requestMessage
  {
    Exchange(requester, owner, book, Pending, requestMessage, [], None, None, None, None, true)
  }

  // ---------------------------------------------------------------- Message

  datatype MessageType = Text | Image | System

  /** The `messageType` enum; any other name fails validation. */
  function ParseMessageType(name: string): (t: Option<MessageType>)
    ensures t == Some(Text) <==> name == "text"
    ensures t == Some(Image) <==> name == "image"
    ensures t == Some(System) <==> name == "system"
  {
    if name == "text" then Some(Text)
    else if name == "image" then Some(Image)
    else if name == "system" then Some(System)
    else None
  }

  datatype Message = Message(
    senderId: Id,
    receiverId: Id,
    exchangeId: Id,
    content: Option<string>,
    messageType: MessageType,
    imageUrl: Option<string>,
    isRead: bool,
    isDeleted: bool)

  /** Content is required for text messages, an image URL for image messages. */
  predicate ValidMessage(m: Message) {
    && (m.messageType == Text ==> Truthy(m.content))
    && (m.content.Some? ==> |m.content.value| <= 1000)
    && (m.messageType == Image ==> Truthy(m.imageUrl))
  }

  // ---------------------------------------------------------------- Notification

  datatype Priority = Low | Medium | High

  const NotificationTypes: seq<string> := [
    "exchange_request", "exchange_approved", "exchange_rejected", "exchange_completed",
    "new_message", "book_viewed", "review_received", "ownership_transferred"]

  const RelatedModels: seq<string> := ["Exchange", "Message", "Book", "User"]

  datatype Notification = Notification(
    userId: Id,
    kind: string,
    title: string,
    message: string,
    relatedId: Option<Id>,
    relatedModel: Option<string>,
    isRead: bool,
    isEmailSent: bool,
    priority: Priority)

  predicate ValidNotification(n: Notification) {
    && n.kind in NotificationTypes
    && 0 < |n.title| <= 100
    && 0 < |n.message| <= 300
    && (n.relatedModel.Some? ==> n.relatedModel.value in RelatedModels)
  }

  /** A notification with the schema defaults: unread, no e-mail sent, medium priority. */
  function NewNotification(userId: Id, kind: string, title: string, message: string,
                           relatedId: Option<Id>, relatedModel: Option<string>): (n: Notification)
    ensures !n.isRead && !n.isEmailSent && n.priority == Medium
    ensures n.userId == userId && n.kind == kind && n.title == title && n.message == message
    ensures n.relatedId == relatedId && n.relatedModel == relatedModel
  {
    Notification(userId, kind, title, message, relatedId, relatedModel, false, false, Medium)
  }

  // ---------------------------------------------------------------- Forum post

  const Categories: seq<string> := ["general", "book-recommendations", "exchange-tips", "reviews", "off-topic"]

  datatype Post = Post(
    title: string,
    content: string,
    author: Id,
    category: string,
    tags: seq<string>,
    likes: seq<Id>,
    replies: seq<Id>,
    isPinned: bool,
    isLocked: bool,
    views: int,
    lastActivity: int)

  predicate ValidPost(p: Post) {
    p.title != "" && p.content != "" && p.category in Categories
  }

  /** A new post with the schema defaults: unpinned, unlocked, no views, likes or replies, and
      last activity at the creation time `now`. */
  function NewPost(title: string, content: string, author: Id, category: string, tags: seq<string>, now: int): (p: Post)
    ensures !p.isPinned && !p.isLocked && p.views == 0 && p.likes == [] && p.replies == []
    ensures p.lastActivity == now
    ensures p.title == title && p.content == content && p.author == author
    ensures p.category == category && p.tags == tags
  {
    Post(title, content, author, category, tags, [], [], false, false, 0, now)
  }
}
