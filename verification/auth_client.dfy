/** The browser-side token checks of src/lib/auth-client.js. The stored token is an optional
    string; decoding the middle part (base64 then JSON) is a parameter, `None` meaning it throws. */
module AuthClient {
  import opened Wrappers
  import opened Text

  /** A decoded payload: a falsy JSON value, or an object whose `exp` is a number or absent. */
  datatype Payload = Falsy | Claims(exp: Option<real>)

  /** A token has the shape the client accepts: exactly three dot-separated parts. */
  predicate WellShaped(token: string) {
    Count(token, '.') == 2
  }

  /** `getCurrentUser`: outside a browser, or with no stored token, nothing; a token of the wrong
      shape or whose payload does not decode is removed and nothing is returned; otherwise the
      decoded payload, with the token kept. The second component is the stored token after. */
  function GetCurrentUser(inBrowser: bool, token: Option<string>, decode: string -> Option<Payload>)
    : (r: (Option<Payload>, Option<string>))
    ensures !inBrowser || !Truthy(token) ==> r == (None, token)
    ensures inBrowser && Truthy(token) && !WellShaped(token.value) ==> r == (None, None)
    ensures r.0.Some? ==> r.1 == token && Truthy(token) && WellShaped(token.value)
    ensures r.0.Some? ==> r.0 == decode(Split(token.value, '.')[1])
    ensures r.1 == token || r.1 == None
  {
    if !inBrowser || !Truthy(token) then (None, token)
    else
      var parts := Split(token.value, '.');
      if |parts| != 3 then (None, None)
      else
        match decode(parts[1])
        case None => (None, None)
        case Some(payload) => (Some(payload), token)
  }

  /** An `exp` at or before `now` (seconds) is expired; a missing `exp` never expires. */
  predicate Expired(exp: Option<real>, now: real) {
    exp.Some? && exp.value <= now
  }

  /** `isAuthenticated` at time `now`: true exactly for a kept token whose payload is an object
      that has not expired; an expired token is removed. */
  function IsAuthenticated(inBrowser: bool, token: Option<string>, decode: string -> Option<Payload>, now: real)
    : (r: (bool, Option<string>))
    ensures r.0 <==>
      && inBrowser && Truthy(token) && WellShaped(token.value)
      && var p := decode(Split(token.value, '.')[1]);
         p.Some? && p.value.Claims? && !Expired(p.value.exp, now)
    ensures r.0 ==> r.1 == token
    ensures r.1 == token || r.1 == None
  {
    var (user, stored) := GetCurrentUser(inBrowser, token, decode);
    match user
    case None => (false, stored)
    case Some(Falsy) => (false, stored)
    case Some(Claims(exp)) => if Expired(exp, now) then (false, None) else (true, stored)
  }

  /** Once the check fails, it keeps failing: whatever token it leaves behind is rejected again at
      any later time. */
  lemma {:induction false} RejectionIsFinal(inBrowser: bool, token: Option<string>, decode: string -> Option<Payload>,
                                           now: real, later: real)
    requires now <= later
    requires !IsAuthenticated(inBrowser, token, decode, now).0
    ensures !IsAuthenticated(inBrowser, IsAuthenticated(inBrowser, token, decode, now).1, decode, later).0
  {
    var after := IsAuthenticated(inBrowser, token, decode, now).1;
    if after == token && inBrowser && Truthy(token) && WellShaped(token.value) {
      var p := decode(Split(token.value, '.')[1]);
      if p.Some? && p.value.Claims? {
        assert Expired(p.value.exp, now);
      }
    }
  }
}
