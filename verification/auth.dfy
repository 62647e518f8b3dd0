/** How the API handlers identify their caller. Token verification is a partial map from token to
    user id (a token outside the map is one `verifyToken` rejects); a signed-in session is the
    session user's e-mail. */
module Auth {
  import opened Wrappers
  import opened Text
  import opened Models
  import opened Db

  /** What a request carries for authentication: the e-mail of the signed-in session user, if any,
      and the `Authorization` header, if any. */
  datatype Credentials = Credentials(session: Option<string>, authorization: Option<string>)

  const BearerPrefix: string := "Bearer "

  /** The token of an `Authorization` header: present only when the header starts with the
      Bearer prefix, and then everything after it. */
  function BearerToken(header: Option<string>): (t: Option<string>)
    ensures t.Some? <==> header.Some? && StartsWith(header.value, BearerPrefix)
    ensures t.Some? ==> header.value == BearerPrefix + t.value
  {
    if header.Some? && StartsWith(header.value, BearerPrefix) then
      assert header.value == header.value[..|BearerPrefix|] + header.value[|BearerPrefix|..];
      Some(header.value[|BearerPrefix|..])
    else None
  }

  /** A header built from a token yields that token back. */
  lemma BearerTokenRoundTrip(token: string)
    ensures BearerToken(Some(BearerPrefix + token)) == Some(token)
  {
    assert (BearerPrefix + token)[..|BearerPrefix|] == BearerPrefix;
  }

  /** The caller a handler acts for, or the rejection it replies with. */
  datatype Caller = Caller(id: Id) | Denied(status: nat, error: string)

  /** The Bearer path: no usable header gives 401 with the route's `missing` message, a token that
      does not verify gives 401 "Invalid token", and a verified token gives the user id it carries
      (which need not name a stored user). */
  function BearerCaller(header: Option<string>, tokens: map<string, Id>, missing: string): (c: Caller)
    ensures BearerToken(header).None? ==> c == Denied(401, missing)
    ensures c.Caller? <==> BearerToken(header).Some? && BearerToken(header).value in tokens
    ensures c.Caller? ==> c.id == tokens[BearerToken(header).value]
    ensures c.Denied? ==> c.status == 401
    ensures BearerToken(header).Some? && c.Denied? ==> c.error == "Invalid token"
  {
    match BearerToken(header)
    case None => Denied(401, missing)
    case Some(token) => if token in tokens then Caller(tokens[token]) else Denied(401, "Invalid token")
  }

  /** A well-formed header with a verified token is accepted as that token's user. */
  lemma BearerAccepts(token: string, tokens: map<string, Id>, missing: string)
    requires token in tokens
    ensures BearerCaller(Some(BearerPrefix + token), tokens, missing) == Caller(tokens[token])
  {
    BearerTokenRoundTrip(token);
  }

  /** The session-first pattern: a session is resolved by e-mail (404 "User not found" when no
      stored user has it) and the header is then ignored; without a session the Bearer path
      decides. */
  function SessionFirstCaller(users: seq<User>, cred: Credentials, tokens: map<string, Id>, missing: string): (c: Caller)
    ensures cred.session.Some? ==>
      (c.Caller? <==> exists j :: 0 <= j < |users| && users[j].email == cred.session.value)
    ensures cred.session.Some? && c.Caller? ==> c.id < |users| && users[c.id].email == cred.session.value
    ensures cred.session.Some? && c.Denied? ==> c == Denied(404, "User not found")
    ensures cred.session.None? ==> c == BearerCaller(cred.authorization, tokens, missing)
  {
    match cred.session
    case Some(email) =>
      (match FindUserByEmail(users, email)
       case Some(id) => Caller(id)
       case None => Denied(404, "User not found"))
    case None => BearerCaller(cred.authorization, tokens, missing)
  }

  /** With a session, the `Authorization` header plays no part. */
  lemma SessionTakesPrecedence(users: seq<User>, email: string, h1: Option<string>, h2: Option<string>,
                               tokens: map<string, Id>, missing: string)
    ensures SessionFirstCaller(users, Credentials(Some(email), h1), tokens, missing)
         == SessionFirstCaller(users, Credentials(Some(email), h2), tokens, missing)
  {
  }

  /** The session-gated pattern of the user listing: any session admits the request without a
      store lookup; without one the Bearer path decides. The resolved id is not used. */
  function SessionOrBearer(cred: Credentials, tokens: map<string, Id>): (admitted: Result<()>)
    ensures admitted.Ok? <==> cred.session.Some? || BearerCaller(cred.authorization, tokens, "Authentication required").Caller?
    ensures admitted.Err? ==> admitted.msg == BearerCaller(cred.authorization, tokens, "Authentication required").error
  {
    if cred.session.Some? then Ok(())
    else
      match BearerCaller(cred.authorization, tokens, "Authentication required")
      case Caller(_) => Ok(())
      case Denied(_, error) => Err(error)
  }
}
