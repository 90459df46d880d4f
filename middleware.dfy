/** The route guard run on every request: a path is public when it matches one
    of the anchored patterns `^/sign-in(.*)$`, `^/sign-up(.*)$`, `^/intro(.*)$`;
    a request to a non-public path without a signed-in user is redirected to
    `/intro`, every other request passes through. */
module Middleware {
  import opened Js

  /** The literal part of each public-route pattern; each pattern is this text
      followed by `(.*)`. */
  const PublicRoutes: seq<string> := ["/sign-in", "/sign-up", "/intro"]

  const IntroPath: string := "/intro"

  /** The characters a regular-expression `.` does not match (no `s` flag). */
  predicate IsLineTerminator(c: char)
  {
    c == '\n' || c == '\r' || c == '\U{2028}' || c == '\U{2029}'
  }

  /** A URL pathname as the URL parser produces it never holds a raw line terminator. */
  predicate IsPathname(path: string)
  {
    forall i :: 0 <= i < |path| ==> !IsLineTerminator(path[i])
  }

  /** `new RegExp("^" + route + "(.*)$").test(path)`: the path starts with the
      route text and the rest is matched by `.*`. */
  predicate RouteMatches(route: string, path: string)
  {
    StartsWith(path, route) && forall i :: |route| <= i < |path| ==> !IsLineTerminator(path[i])
  }

  /** `routes.some(route => ...)` */
  predicate SomeRouteMatches(routes: seq<string>, path: string)
    decreases |routes|
  {
    routes != [] && (RouteMatches(routes[0], path) || SomeRouteMatches(routes[1..], path))
  }

  predicate IsPublic(path: string)
  {
    SomeRouteMatches(PublicRoutes, path)
  }

  datatype Decision = Redirect(location: string) | Next

  /** The middleware's answer for a request to `path`, where `userId` is the
      signed-in user's id, if any. */
  function Route(path: string, userId: Option<string>): Decision
  {
    if !IsPublic(path) && !Truthy(userId) then Redirect(IntroPath) else Next
  }

  /** `Array.some` holds exactly when one of the routes matches. */
  lemma {:induction false} SomeRouteMatchesIff(routes: seq<string>, path: string)
    ensures SomeRouteMatches(routes, path) <==> exists i :: 0 <= i < |routes| && RouteMatches(routes[i], path)
    decreases |routes|
  {
    if routes != [] {
      SomeRouteMatchesIff(routes[1..], path);
      if exists i :: 0 <= i < |routes| && RouteMatches(routes[i], path) {
        var i :| 0 <= i < |routes| && RouteMatches(routes[i], path);
        if i > 0 {
          assert routes[1..][i - 1] == routes[i];
        }
      }
      if exists i :: 0 <= i < |routes[1..]| && RouteMatches(routes[1..][i], path) {
        var i :| 0 <= i < |routes[1..]| && RouteMatches(routes[1..][i], path);
        assert routes[i + 1] == routes[1..][i];
      }
    }
  }

  /** On a pathname the patterns reduce to a raw string-prefix test. */
  lemma PublicIffPrefix(path: string)
    requires IsPathname(path)
    ensures IsPublic(path) <==>
      StartsWith(path, "/sign-in") || StartsWith(path, "/sign-up") || StartsWith(path, "/intro")
  {
    SomeRouteMatchesIff(PublicRoutes, path);
    assert PublicRoutes[0] == "/sign-in" && PublicRoutes[1] == "/sign-up" && PublicRoutes[2] == "/intro";
  }

  /** Whatever the path, a public path starts with one of the three prefixes. */
  lemma PublicHasPrefix(path: string)
    requires IsPublic(path)
    ensures StartsWith(path, "/sign-in") || StartsWith(path, "/sign-up") || StartsWith(path, "/intro")
  {
    SomeRouteMatchesIff(PublicRoutes, path);
    assert PublicRoutes[0] == "/sign-in" && PublicRoutes[1] == "/sign-up" && PublicRoutes[2] == "/intro";
  }

  /** The prefix is not a path segment: `/introduction` and `/sign-inx` are public. */
  lemma PrefixIsNotASegment()
    ensures IsPublic("/introduction") && IsPublic("/sign-inx")
  {
    PublicIffPrefix("/introduction");
    assert StartsWith("/introduction", "/intro");
    PublicIffPrefix("/sign-inx");
    assert StartsWith("/sign-inx", "/sign-in");
  }

  /** A request is redirected exactly when it is unauthenticated and its path
      starts with none of the public prefixes; the redirect always goes to /intro. */
  lemma RedirectIff(path: string, userId: Option<string>)
    requires IsPathname(path)
    ensures Route(path, userId) != Next ==> Route(path, userId) == Redirect("/intro")
    ensures Route(path, userId).Redirect? <==>
      && !Truthy(userId)
      && !StartsWith(path, "/sign-in") && !StartsWith(path, "/sign-up") && !StartsWith(path, "/intro")
  {
    PublicIffPrefix(path);
  }

  /** Signed-in users are never redirected, and neither is any public path. */
  lemma NeverRedirected(path: string, userId: Option<string>)
    requires Truthy(userId) || IsPublic(path)
    ensures Route(path, userId) == Next
  {
  }

  /** The redirect target is itself public, so the guard never redirects in a loop. */
  lemma RedirectTargetIsPublic(path: string, userId: Option<string>)
    requires Route(path, userId).Redirect?
    ensures IsPublic(Route(path, userId).location)
    ensures Route(Route(path, userId).location, userId) == Next
  {
    PublicIffPrefix(IntroPath);
    assert StartsWith(IntroPath, "/intro");
  }
}
