/** The request middleware of src/middleware.js: it classifies a path as public or not and then
    lets every request through. */
module Middleware {
  import opened Text

  const PublicRoutes: seq<string> := ["/", "/login", "/register", "/books", "/api/auth/login", "/api/auth/register"]

  const AuthPrefix: string := "/api/auth/"

  /** `routes.some(route => path === route || path.startsWith(prefix))`. */
  function SomeRoute(routes: seq<string>, path: string, prefix: string): (b: bool)
    ensures b <==> (path in routes || (routes != [] && StartsWith(path, prefix)))
  {
    if routes == [] then false
    else path == routes[0] || StartsWith(path, prefix) || SomeRoute(routes[1..], path, prefix)
  }

  /** A path is public exactly when it is one of the listed routes or lies under the auth API. */
  function IsPublicRoute(path: string): (b: bool)
    ensures b <==> path in PublicRoutes || StartsWith(path, AuthPrefix)
  {
    SomeRoute(PublicRoutes, path, AuthPrefix)
  }

  /** Listed routes match exactly: the catalogue is public, a single book's page is not. */
  lemma ListedRoutesMatchExactly()
    ensures IsPublicRoute("/books")
    ensures !IsPublicRoute("/books/42")
  {
    assert |"/books/42"| < |AuthPrefix|;
  }

  /** Every path under the auth API is public, listed or not. */
  lemma AuthApiIsPublic(rest: string)
    ensures IsPublicRoute(AuthPrefix + rest)
  {
    assert (AuthPrefix + rest)[..|AuthPrefix|] == AuthPrefix;
  }

  /** What the middleware tells the framework to do with a request. */
  datatype Decision = Next | Respond(status: nat)

  /** The classification and the decision: both branches of the source continue the request. */
  function Handle(path: string): (r: (bool, Decision))
    ensures r.0 <==> IsPublicRoute(path)
    ensures r.1 == Next
  {
    (IsPublicRoute(path), Next)
  }
}
