/**
 * The route guard of `middleware.js`: a request for a private path without a
 * session token is redirected to the login page, every other request goes
 * on. Whether `getToken` finds a token is an input.
 */
module Middleware {

  /** `s.startsWith(prefix)` */
  predicate StartsWith(s: string, prefix: string) {
    |prefix| <= |s| && s[..|prefix|] == prefix
  }

  const BookingPrefix: string := "/booking"
  const MyBookingsPrefix: string := "/my-bookings"
  const LoginPath: string := "/login"

  /** `isPrivateRoute`, decided by prefix alone. */
  predicate IsPrivateRoute(pathname: string) {
    StartsWith(pathname, BookingPrefix) || StartsWith(pathname, MyBookingsPrefix)
  }

  /** `NextResponse.redirect(new URL('/login', request.url))` or `NextResponse.next()`. */
  datatype Response = Redirect(location: string) | Next

  /** The body of `middleware(request)` once the token lookup is done. */
  function HandleRequest(pathname: string, hasToken: bool): (r: Response)
    ensures r == Redirect(LoginPath) <==> IsPrivateRoute(pathname) && !hasToken
    ensures r == Next <==> !IsPrivateRoute(pathname) || hasToken
  {
    if IsPrivateRoute(pathname) && !hasToken then Redirect(LoginPath) else Next
  }

  /** Concatenation keeps its left operand as a prefix. */
  lemma StartsWithAppend(p: string, rest: string)
    ensures StartsWith(p + rest, p)
  {
    assert (p + rest)[..|p|] == p;
  }

  /** A prefix of a prefix is a prefix. */
  lemma StartsWithTrans(s: string, p: string, q: string)
    requires StartsWith(s, p) && StartsWith(p, q)
    ensures StartsWith(s, q)
  {
    assert s[..|q|] == s[..|p|][..|q|];
  }

  /** Any path starting with "/booking" (so "/bookings" too) or with "/my-bookings" is private. */
  lemma PrivateByPrefix(rest: string)
    ensures IsPrivateRoute(BookingPrefix + rest)
    ensures IsPrivateRoute(MyBookingsPrefix + rest)
  {
    StartsWithAppend(BookingPrefix, rest);
    StartsWithAppend(MyBookingsPrefix, rest);
  }

  /** Public paths are not private. */
  lemma PublicPaths()
    ensures !IsPrivateRoute("/") && !IsPrivateRoute(LoginPath) && !IsPrivateRoute("/register")
    ensures !IsPrivateRoute("/service/1")
  {
    assert "/register"[..8][1] == 'r' && BookingPrefix[1] == 'b';
    assert "/service/1"[..8][1] == 's';
  }

  /**
   * A path the `matcher` pattern `base/:path*` selects: `base` itself or
   * `base` followed by "/" and further segments. The set given here also
   * admits empty segments, a superset of what the framework matches.
   */
  predicate MatchesPattern(base: string, pathname: string) {
    pathname == base || StartsWith(pathname, base + "/")
  }

  /** `config.matcher`: `['/booking/:path*', '/my-bookings/:path*']`. */
  predicate Matched(pathname: string) {
    MatchesPattern(BookingPrefix, pathname) || MatchesPattern(MyBookingsPrefix, pathname)
  }

  /** Every path the matcher selects is private. */
  lemma MatchedIsPrivate(pathname: string)
    requires Matched(pathname)
    ensures IsPrivateRoute(pathname)
  {
    if MatchesPattern(BookingPrefix, pathname) && pathname != BookingPrefix {
      StartsWithAppend(BookingPrefix, "/");
      StartsWithTrans(pathname, BookingPrefix + "/", BookingPrefix);
    } else if MatchesPattern(MyBookingsPrefix, pathname) && pathname != MyBookingsPrefix {
      StartsWithAppend(MyBookingsPrefix, "/");
      StartsWithTrans(pathname, MyBookingsPrefix + "/", MyBookingsPrefix);
    }
  }

  /** The whole guard: the middleware runs only on matched paths; every other request goes on. */
  function Route(pathname: string, hasToken: bool): (r: Response)
    ensures !Matched(pathname) ==> r == Next
  {
    if Matched(pathname) then HandleRequest(pathname, hasToken) else Next
  }

  /** A request is redirected to "/login" exactly when the matcher selects it and there is no token. */
  lemma RouteRedirectsIff(pathname: string, hasToken: bool)
    ensures Route(pathname, hasToken) == Redirect(LoginPath) <==> Matched(pathname) && !hasToken
    ensures Route(pathname, hasToken) == Redirect(LoginPath) || Route(pathname, hasToken) == Next
  {
    if Matched(pathname) {
      MatchedIsPrivate(pathname);
    }
  }

  /** "/bookings" is private by prefix, yet the matcher never runs the middleware on it. */
  lemma BookingsPrivateButUnmatched()
    ensures IsPrivateRoute("/bookings")
    ensures !Matched("/bookings")
    ensures Route("/bookings", false) == Next
  {
    PrivateByPrefix("s");
    assert BookingPrefix + "s" == "/bookings";
    assert "/bookings"[8] == 's';
  }
}
