/** The account handlers: registration (src/app/api/auth/register/route.js), the caller's own
    profile (src/app/api/auth/me/route.js, read and update) and the public user listing
    (src/app/api/users/all/route.js) with its completed-exchange count repair. Password hashing
    and token signing are left out: the new user's id stands for the issued token. */
module Users {
  import opened Wrappers
  import opened Points
  import opened Models
  import opened Db
  import opened Sorting
  import opened Auth

  // ---------------------------------------------------------------- register

  datatype Registration = Registration(name: Option<string>, email: Option<string>, password: Option<string>,
                                       location: Option<string>, bio: Option<string>)

  predicate EmailTaken(users: seq<User>, email: string) {
    exists j :: 0 <= j < |users| && users[j].email == email
  }

  /** The account fields the registration and profile-update replies carry; there is no
      password field. */
  datatype Account = Account(id: Id, name: string, email: string, location: string, bio: string,
                             profilePicture: string, rating: real, totalExchanges: Option<int>)

  function AccountOf(users: seq<User>, id: Id): (a: Account)
    requires id < |users|
    ensures a.id == id && a.name == users[id].name && a.email == users[id].email
    ensures a.location == users[id].location && a.bio == users[id].bio
  {
    var u := users[id];
    Account(id, u.name, u.email, u.location, u.bio, u.profilePicture, u.rating, u.totalExchanges)
  }

  /** `POST /api/auth/register`. The four required fields (400), a password of at least six
      characters (400) and an unused e-mail (400) are checked in that order; the new user is then
      saved (the schema's validators can refuse it, giving 500 with nothing stored) and the reply
      carries its account fields, without the password. */
  function Register(s: Store, f: Registration): (r: (Reply<Account>, Store))
    ensures !(Truthy(f.name) && Truthy(f.email) && Truthy(f.password) && Truthy(f.location)) ==>
      r == (Failure(400, "Name, email, password, and location are required"), s)
    ensures Truthy(f.name) && Truthy(f.email) && Truthy(f.password) && Truthy(f.location) ==>
      && (|f.password.value| < 6 ==> r == (Failure(400, "Password must be at least 6 characters long"), s))
      && (|f.password.value| >= 6 && EmailTaken(s.users, f.email.value) ==>
            r == (Failure(400, "User with this email already exists"), s))
    ensures r.0.Failure? ==> r.1 == s
    ensures r.0.Success? <==>
      && Truthy(f.name) && Truthy(f.email) && Truthy(f.password) && Truthy(f.location)
      && |f.password.value| >= 6 && !EmailTaken(s.users, f.email.value)
      && ValidUser(NewUser(f.name.value, f.email.value, f.password.value, f.location.value, OrElse(f.bio, "")))
    ensures r.0.Success? ==>
      && r.1 == s.(users := s.users + [NewUser(f.name.value, f.email.value, f.password.value, f.location.value, OrElse(f.bio, ""))])
      && r.0 == Success(200, AccountOf(r.1.users, |s.users|))
  {
    if !(Truthy(f.name) && Truthy(f.email) && Truthy(f.password) && Truthy(f.location)) then
      (Failure(400, "Name, email, password, and location are required"), s)
    else if |f.password.value| < 6 then
      (Failure(400, "Password must be at least 6 characters long"), s)
    else if FindUserByEmail(s.users, f.email.value).Some? then
      (Failure(400, "User with this email already exists"), s)
    else
      var u := NewUser(f.name.value, f.email.value, f.password.value, f.location.value, OrElse(f.bio, ""));
      var id: Id := |s.users|;
      if !ValidUser(u) then (Failure(500, "Internal server error"), s)
      else
        var users := s.users + [u];
        (Success(200, AccountOf(users, id)), s.(users := users))
  }

  /** No two stored users share an e-mail. */
  predicate UniqueEmails(users: seq<User>) {
    forall i, j :: 0 <= i < j < |users| ==> users[i].email != users[j].email
  }

  /** Registration keeps e-mails unique, and a session for the new e-mail resolves to the new user. */
  lemma RegisterThenSignIn(s: Store, f: Registration, header: Option<string>, tokens: map<string, Id>, missing: string)
    requires UniqueEmails(s.users)
    requires Register(s, f).0.Success?
    ensures var t := Register(s, f).1;
            && UniqueEmails(t.users)
            && SessionFirstCaller(t.users, Credentials(f.email, header), tokens, missing) == Caller(|s.users|)
  {
    var t := Register(s, f).1;
    var email := f.email.value;
    assert t.users[|s.users|].email == email;
    assert forall j :: 0 <= j < |s.users| ==> t.users[j] == s.users[j];
    match FindUserByEmail(t.users, email)
    case Some(id) =>
      assert id == |s.users|;
    case None =>
      assert false;
  }

  /** Registering the same e-mail twice is refused the second time. */
  lemma SecondRegistrationRefused(s: Store, f: Registration)
    requires Register(s, f).0.Success?
    ensures Register(Register(s, f).1, f).0 == Failure(400, "User with this email already exists")
  {
    var t := Register(s, f).1;
    assert t.users[|s.users|].email == f.email.value;
  }

  // ---------------------------------------------------------------- me

  /** The profile the `me` handler replies with. */
  datatype Profile = Profile(
    id: Id,
    name: string,
    email: string,
    location: string,
    bio: string,
    profilePicture: string,
    rating: real,
    totalExchanges: Option<int>,
    points: int,
    level: Level,
    isVerified: bool,
    books: seq<Id>,
    isGoogleUser: bool)

  /** The profile of stored user `id`, with missing points read as 0. */
  function ProfileOf(users: seq<User>, id: Id): (p: Profile)
    requires id < |users|
    ensures p.id == id && p.points == PointsOrZero(users[id]) && p.level == users[id].level
    ensures p.name == users[id].name && p.email == users[id].email && p.bio == users[id].bio
    ensures p.location == users[id].location && p.profilePicture == users[id].profilePicture
    ensures p.books == users[id].books
  {
    var u := users[id];
    Profile(id, u.name, u.email, u.location, u.bio, u.profilePicture, u.rating, u.totalExchanges,
            PointsOrZero(u), u.level, u.isVerified, u.books, u.isGoogleUser)
  }

  /** `GET /api/auth/me`: the session user's profile or, without a session, the Bearer token's
      user's (401 "Not authenticated" without a usable header, 404 for a token whose user is
      not stored). Nothing is written. */
  function GetMe(users: seq<User>, cred: Credentials, tokens: map<string, Id>): (r: Reply<Profile>)
    ensures var c := SessionFirstCaller(users, cred, tokens, "Not authenticated");
            && (c.Denied? ==> r == Failure(c.status, c.error))
            && (c.Caller? && c.id >= |users| ==> r == Failure(404, "User not found"))
            && (r.Success? <==> c.Caller? && c.id < |users|)
    ensures r.Success? ==>
      var me := SessionFirstCaller(users, cred, tokens, "Not authenticated").id;
      r.status == 200 && r.body == ProfileOf(users, me)
  {
    match SessionFirstCaller(users, cred, tokens, "Not authenticated")
    case Denied(status, error) => Failure(status, error)
    case Caller(me) =>
      if me >= |users| then Failure(404, "User not found") else Success(200, ProfileOf(users, me))
  }

  /** The fields of a profile update; `None` stands for a field the body leaves out. */
  datatype ProfileEdit = ProfileEdit(name: Option<string>, email: Option<string>, location: Option<string>,
                                     bio: Option<string>, profilePicture: Option<string>)

  /** Another stored user already has the e-mail. */
  predicate EmailUsedByOther(users: seq<User>, email: string, me: Id) {
    exists j :: 0 <= j < |users| && j != me && users[j].email == email
  }

  /** The record the update produces: name and e-mail only when non-empty, the other three
      whenever present. */
  function Edited(u: User, e: ProfileEdit): (v: User)
    ensures v.name == (if Truthy(e.name) then e.name.value else u.name)
    ensures v.email == (if Truthy(e.email) then e.email.value else u.email)
    ensures v.location == e.location.GetOr(u.location) && v.bio == e.bio.GetOr(u.bio)
    ensures v.profilePicture == e.profilePicture.GetOr(u.profilePicture)
    ensures v.(name := u.name, email := u.email, location := u.location, bio := u.bio, profilePicture := u.profilePicture) == u
  {
    u.(name := OrElse(e.name, u.name), email := OrElse(e.email, u.email), location := e.location.GetOr(u.location),
       bio := e.bio.GetOr(u.bio), profilePicture := e.profilePicture.GetOr(u.profilePicture))
  }

  /** The update validators that can refuse the edit: the name and bio length bounds, and the
      location's `required` rule, which refuses an empty location. The rule's exemption for
      Google accounts reads `this.isGoogleUser`, and an update validator does not run against the
      user record, so the exemption does not apply. */
  predicate EditValid(e: ProfileEdit) {
    && (Truthy(e.name) ==> |e.name.value| <= 50)
    && (e.bio.Some? ==> |e.bio.value| <= 500)
    && (e.location.Some? ==> e.location.value != "")
  }

  /** `PUT /api/auth/me`: Bearer only (401 "Not authenticated" / "Invalid token"); a non-empty
      e-mail another user has gives 400; a field over its length bound or an empty location
      gives 500; a token whose
      user is not stored gives 404. Otherwise the caller's record is edited and its account fields
      and verification flag are returned (not its points, level or books). */
  function UpdateMe(s: Store, header: Option<string>, tokens: map<string, Id>, e: ProfileEdit): (r: (Reply<(Account, bool)>, Store))
    ensures var c := BearerCaller(header, tokens, "Not authenticated");
            && (c.Denied? ==> r == (Failure(c.status, c.error), s))
            && (c.Caller? && Truthy(e.email) && EmailUsedByOther(s.users, e.email.value, c.id) ==>
                  r == (Failure(400, "Email already in use"), s))
    ensures r.0.Failure? ==> r.1 == s
    ensures r.0.Success? <==>
      var c := BearerCaller(header, tokens, "Not authenticated");
      && c.Caller? && c.id < |s.users| && EditValid(e)
      && !(Truthy(e.email) && EmailUsedByOther(s.users, e.email.value, c.id))
    ensures r.0.Success? ==>
      var me := BearerCaller(header, tokens, "Not authenticated").id;
      && r.1 == s.(users := UpdateUser(s.users, me, Edited(s.users[me], e), true))
      && r.0 == Success(200, (AccountOf(r.1.users, me), r.1.users[me].isVerified))
  {
    match BearerCaller(header, tokens, "Not authenticated")
    case Denied(status, error) => (Failure(status, error), s)
    case Caller(me) =>
      if Truthy(e.email) && EmailUsedByOther(s.users, e.email.value, me) then (Failure(400, "Email already in use"), s)
      else if !EditValid(e) then (Failure(500, "Internal server error"), s)
      else if me >= |s.users| then (Failure(404, "User not found"), s)
      else
        var t := s.(users := UpdateUser(s.users, me, Edited(s.users[me], e), true));
        (Success(200, (AccountOf(t.users, me), t.users[me].isVerified)), t)
  }

  /** An accepted edit keeps e-mails unique, and reading the profile back with the same token shows
      the edited fields. */
  lemma UpdateThenRead(s: Store, header: Option<string>, tokens: map<string, Id>, e: ProfileEdit)
    requires UniqueEmails(s.users)
    requires UpdateMe(s, header, tokens, e).0.Success?
    ensures var t := UpdateMe(s, header, tokens, e).1;
            var me := BearerCaller(header, tokens, "Not authenticated").id;
            var r := GetMe(t.users, Credentials(None, header), tokens);
            && UniqueEmails(t.users)
            && r.Success?
            && r.body.name == (if Truthy(e.name) then e.name.value else s.users[me].name)
            && r.body.email == (if Truthy(e.email) then e.email.value else s.users[me].email)
            && r.body.bio == e.bio.GetOr(s.users[me].bio)
            && r.body.location == e.location.GetOr(s.users[me].location)
  {
    var t := UpdateMe(s, header, tokens, e).1;
    var me := BearerCaller(header, tokens, "Not authenticated").id;
    assert forall j :: 0 <= j < |s.users| && j != me ==> t.users[j] == s.users[j];
    assert t.users[me].(level := Edited(s.users[me], e).level) == Edited(s.users[me], e);
    forall i, j | 0 <= i < j < |t.users|
      ensures t.users[i].email != t.users[j].email
    {
      if i != me && j != me {
        assert t.users[i] == s.users[i] && t.users[j] == s.users[j];
      } else if Truthy(e.email) {
        assert !EmailUsedByOther(s.users, e.email.value, me);
        if i == me {
          assert t.users[j] == s.users[j];
        } else {
          assert t.users[i] == s.users[i];
        }
      }
    }
  }

  // ---------------------------------------------------------------- users/all

  /** A completed exchange the user took part in, on either side. */
  predicate CompletedWith(e: Exchange, id: Id) {
    e.status == Completed && (e.requesterId == id || e.ownerId == id)
  }

  function CompletedCount(exchanges: seq<Exchange>, id: Id): nat {
    CountIf(exchanges, (e: Exchange) => CompletedWith(e, id))
  }

  /** The records the listing updates: those with completed exchanges. The source reads
      `user.exchangesCompleted || 0`, but the User schema does not declare that path, so a loaded
      document never shows it and the read is always 0; the count is therefore always recomputed,
      and every user with completed exchanges gets an update. */
  predicate NeedsRepair(exchanges: seq<Exchange>, id: Id) {
    CompletedCount(exchanges, id) > 0
  }

  /** One entry of the public listing. */
  datatype Summary = Summary(id: Id, name: string, email: string, profilePicture: string, bio: string,
                             location: string, rating: real, books: seq<Id>, exchangesCompleted: int)

  /** The listing entry of user `id`; its count is always the number of completed exchanges the
      user took part in. */
  function SummaryOf(users: seq<User>, exchanges: seq<Exchange>, id: Id): (e: Summary)
    requires id < |users|
    ensures e.exchangesCompleted == CompletedCount(exchanges, id)
    ensures e.id == id && e.name == users[id].name && e.email == users[id].email && e.books == users[id].books
  {
    var u := users[id];
    Summary(id, u.name, u.email, u.profilePicture, u.bio, u.location, u.rating, u.books, CompletedCount(exchanges, id))
  }

  /** Every user's entry, newest first. */
  function Listing(users: seq<User>, exchanges: seq<Exchange>): (body: seq<Summary>)
    ensures |body| == |users|
    ensures forall k :: 0 <= k < |users| ==> body[k] == SummaryOf(users, exchanges, |users| - 1 - k)
  {
    var n := |users|;
    seq(n, k requires 0 <= k < n => SummaryOf(users, exchanges, n - 1 - k))
  }

  /** The users after the write-back. Its only field is undeclared, so strict mode strips it and
      the update writes nothing; but the post-update hook still runs, on the record as it was (no
      `{ new: true }`), so an updated record ends with a level consistent with its points. */
  function Repaired(users: seq<User>, exchanges: seq<Exchange>): (r: seq<User>)
    ensures |r| == |users|
    ensures forall i :: 0 <= i < |users| ==>
      && r[i].(level := users[i].level) == users[i]
      && (NeedsRepair(exchanges, i) ==> LevelConsistent(r[i]))
      && (!NeedsRepair(exchanges, i) ==> r[i] == users[i])
  {
    seq(|users|, i requires 0 <= i < |users| =>
      if NeedsRepair(exchanges, i) then UpdateUser(users, i, users[i], false)[i] else users[i])
  }

  /** `GET /api/users/all`: any session, or else a verified Bearer token, admits the request.
      Every user is listed once, newest first, with the count of completed exchanges; every user
      with completed exchanges goes through an update that only runs the post-update hook. */
  function ListUsers(s: Store, cred: Credentials, tokens: map<string, Id>): (r: (Reply<seq<Summary>>, Store))
    ensures var admitted := SessionOrBearer(cred, tokens);
            && (admitted.Err? ==> r == (Failure(401, admitted.msg), s))
            && (admitted.Ok? ==> r.0.Success? && r.0.status == 200)
    ensures r.0.Success? ==>
      var n := |s.users|;
      && |r.0.body| == n
      && (forall k :: 0 <= k < n ==> r.0.body[k] == SummaryOf(s.users, s.exchanges, n - 1 - k))
      && r.1 == s.(users := Repaired(s.users, s.exchanges))
  {
    match SessionOrBearer(cred, tokens)
    case Err(msg) => (Failure(401, msg), s)
    case Ok(_) =>
      (Success(200, Listing(s.users, s.exchanges)), s.(users := Repaired(s.users, s.exchanges)))
  }

  /** The listing settles after one call: a second call replies the same and changes nothing. */
  lemma ListingSettles(s: Store, cred: Credentials, tokens: map<string, Id>)
    requires SessionOrBearer(cred, tokens).Ok?
    ensures var (r1, t1) := ListUsers(s, cred, tokens);
            var (r2, t2) := ListUsers(t1, cred, tokens);
            r2 == r1 && t2 == t1
  {
    var (r1, t1) := ListUsers(s, cred, tokens);
    var (r2, t2) := ListUsers(t1, cred, tokens);
    var n := |s.users|;
    assert t1.exchanges == s.exchanges && |t1.users| == n;
    forall i | 0 <= i < n
      ensures Repaired(t1.users, t1.exchanges)[i] == t1.users[i]
      ensures SummaryOf(t1.users, t1.exchanges, i) == SummaryOf(s.users, s.exchanges, i)
    {
      assert t1.users[i].(level := s.users[i].level) == s.users[i];
    }
    assert Repaired(t1.users, t1.exchanges) == t1.users;
    assert r2.body == r1.body;
  }
}
