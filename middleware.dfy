/**
 * The request middleware: a page request without an `auth-token` cookie is
 * sent to /login, the login page with the cookie is sent to /dashboard, and
 * everything else passes. Only the cookie's presence is looked at. The
 * matcher keeps the middleware off paths whose text after the leading '/'
 * starts with `api`, `_next/static`, `_next/image`, `favicon.ico` (where
 * '.' is a regular-expression wildcard) or `public`.
 */
module Middleware {
  import opened JsText
  import LoginRoute
  import UsersApi

  datatype Decision = RedirectTo(path: string) | PassThrough

  const LoginPath := "/login"
  const DashboardPath := "/dashboard"

  /**
   * `middleware`: `token` is the `auth-token` cookie's value, None when the
   * request carries no such cookie. The value itself is never read.
   */
  function Decide(token: Option<string>, pathname: string): (d: Decision)
    ensures token.None? && pathname != LoginPath ==> d == RedirectTo(LoginPath)
    ensures token.Some? && pathname == LoginPath ==> d == RedirectTo(DashboardPath)
    ensures d == PassThrough <==> (token.Some? <==> pathname != LoginPath)
  {
    var isLoginPage := pathname == LoginPath;
    if token.None? && !isLoginPage then RedirectTo(LoginPath)
    else if token.Some? && isLoginPage then RedirectTo(DashboardPath)
    else PassThrough
  }

  /** Following a redirect with the same cookies is never redirected again. */
  lemma NoRedirectLoop(token: Option<string>, pathname: string)
    ensures Decide(token, pathname).RedirectTo? ==> Decide(token, Decide(token, pathname).path) == PassThrough
  {
  }

  /** Any two cookie values, even the empty one, lead to the same decision. */
  lemma OnlyPresenceCounts(t1: string, t2: string, pathname: string)
    ensures Decide(Some(t1), pathname) == Decide(Some(t2), pathname)
  {
  }

  /** Characters `.` in a JavaScript regular expression does not match. */
  predicate IsLineTerminator(c: char) {
    c == '\n' || c == '\r' || c == '\U{2028}' || c == '\U{2029}'
  }

  /** The negative lookahead `(?!api|_next/static|_next/image|favicon.ico|public)` fails on `rest`. */
  predicate ExcludedPrefix(rest: string) {
    || StartsWith(rest, "api")
    || StartsWith(rest, "_next/static")
    || StartsWith(rest, "_next/image")
    || (|rest| >= 11 && rest[..7] == "favicon" && !IsLineTerminator(rest[7]) && rest[8..11] == "ico")
    || StartsWith(rest, "public")
  }

  /** A path text whose first character starts none of the excluded prefixes is not excluded. */
  lemma NotExcluded(rest: string)
    requires rest != [] && rest[0] != 'a' && rest[0] != '_' && rest[0] != 'f' && rest[0] != 'p'
    ensures !ExcludedPrefix(rest)
  {
    if |rest| >= 3 { assert rest[..3][0] == rest[0]; }
    if |rest| >= 6 { assert rest[..6][0] == rest[0]; }
    if |rest| >= 11 {
      assert rest[..11][0] == rest[0];
      assert rest[..7][0] == rest[0];
    }
    if |rest| >= 12 { assert rest[..12][0] == rest[0]; }
  }

  /**
   * `config.matcher`, `/((?!…).*)` matched against the whole path: a '/'
   * not followed by an excluded prefix, then any text without line
   * terminators.
   */
  predicate Matched(pathname: string) {
    && |pathname| >= 1 && pathname[0] == '/'
    && !ExcludedPrefix(pathname[1..])
    && forall i :: 1 <= i < |pathname| ==> !IsLineTerminator(pathname[i])
  }

  /** The whole effect on a request: the middleware runs only on matched paths. */
  function Route(token: Option<string>, pathname: string): (d: Decision)
    ensures !Matched(pathname) ==> d == PassThrough
    ensures Matched(pathname) ==> d == Decide(token, pathname)
  {
    if Matched(pathname) then Decide(token, pathname) else PassThrough
  }

  /** API routes are never redirected, and the prefix test also lets "/apiary" through. */
  lemma ApiPathsSkipped(token: Option<string>)
    ensures Route(token, "/api/users") == PassThrough
    ensures Route(token, "/apiary") == PassThrough
    ensures Route(token, "/public/logo.png") == PassThrough
  {
    assert "api/users"[..3] == "api";
    assert "/api/users"[1..] == "api/users";
    assert "apiary"[..3] == "api";
    assert "/apiary"[1..] == "apiary";
    assert "public/logo.png"[..6] == "public";
    assert "/public/logo.png"[1..] == "public/logo.png";
  }

  /** The wildcard in `favicon.ico` lets "/favicon-ico" through too. */
  lemma FaviconWildcard(token: Option<string>)
    ensures Route(token, "/favicon-ico") == PassThrough
  {
    var rest := "/favicon-ico"[1..];
    assert rest == "favicon-ico";
    assert rest[..7] == "favicon" && rest[8..11] == "ico";
  }

  /** The dashboard and the login page are matched: a visitor without the cookie is sent to /login. */
  lemma PagesGuarded()
    ensures Route(None, "/dashboard") == RedirectTo(LoginPath)
    ensures Route(None, "/login") == PassThrough
  {
    PageMatched("/dashboard");
    PageMatched("/login");
  }

  lemma PageMatched(pathname: string)
    requires pathname == "/dashboard" || pathname == "/login"
    ensures Matched(pathname)
  {
    NotExcluded(pathname[1..]);
  }

  /** After a successful login the cookie opens the dashboard and the login page sends back to it. */
  lemma LoggedInSession(body: Option<LoginRoute.LoginBody>, db: Option<seq<UsersApi.User>>,
                        compare: (string, string) -> bool,
                        sign: (LoginRoute.TokenPayload, int) -> string, production: bool)
    requires LoginRoute.Login(body, db, compare, sign, production).LoggedIn?
    ensures var r := LoginRoute.Login(body, db, compare, sign, production);
      && r.cookie.name == "auth-token"
      && Route(Some(r.cookie.value), "/dashboard") == PassThrough
      && Route(Some(r.cookie.value), "/login") == RedirectTo(DashboardPath)
  {
    PageMatched("/dashboard");
    PageMatched("/login");
  }
}
