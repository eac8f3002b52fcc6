/**
 * The access rule of middleware.ts: which requests are sent to the login
 * page, which get a 401, and which pass. Only the presence of the
 * `admin_token` cookie is looked at, never its content.
 */
module Middleware {
  import opened Wrappers
  import opened Text

  datatype Decision = RedirectToLogin | Unauthorized | Pass

  /** `request.cookies.get('admin_token')?.value` is truthy. */
  predicate HasToken(token: Option<string>) {
    token.Some? && token.value != ""
  }

  /** An admin page other than the login page (a prefix test, not a path-segment test). */
  predicate GuardedPage(path: string) {
    StartsWith(path, "/admin") && !StartsWith(path, "/admin/login")
  }

  /** An admin API route whose path nowhere contains `/auth/login`. */
  predicate GuardedApi(path: string) {
    StartsWith(path, "/api/admin") && !Includes(path, "/auth/login")
  }

  /** The body of `middleware` for a request it is invoked on. */
  function Decide(path: string, token: Option<string>): (d: Decision)
    ensures d == RedirectToLogin <==> GuardedPage(path) && !HasToken(token)
    ensures d == Unauthorized <==> GuardedApi(path) && !HasToken(token)
    ensures HasToken(token) ==> d == Pass
  {
    PrefixesExclusive(path);
    if GuardedPage(path) && !HasToken(token) then RedirectToLogin
    else if GuardedApi(path) && !HasToken(token) then Unauthorized
    else Pass
  }

  /** No path is both an admin page and an admin API route: the third characters differ. */
  lemma PrefixesExclusive(path: string)
    ensures !(StartsWith(path, "/admin") && StartsWith(path, "/api/admin"))
  {
    if StartsWith(path, "/admin") {
      assert path[2] == "/admin"[2] == 'd';
    }
  }

  /** The `matcher` of the config: `/admin/:path*` and `/api/admin/:path*`. */
  predicate Matched(path: string) {
    || path == "/admin" || StartsWith(path, "/admin/")
    || path == "/api/admin" || StartsWith(path, "/api/admin/")
  }

  /** What a request meets: the middleware when the matcher selects it, otherwise nothing. */
  function Handle(path: string, token: Option<string>): (d: Decision)
    ensures !Matched(path) ==> d == Pass
    ensures Matched(path) ==> d == Decide(path, token)
  {
    if Matched(path) then Decide(path, token) else Pass
  }

  /** A signed-in request is never stopped, whatever the token says. */
  lemma TokenPasses(path: string, token: Option<string>)
    requires HasToken(token)
    ensures Handle(path, token) == Pass
  {
  }

  /** Without a token, every admin page under the matcher except the login pages redirects. */
  lemma AnonymousAdminPage(rest: string)
    requires !StartsWith("/admin/" + rest, "/admin/login")
    ensures Handle("/admin/" + rest, None) == RedirectToLogin
  {
    assert StartsWith("/admin/" + rest, "/admin/");
    assert StartsWith("/admin/" + rest, "/admin");
  }

  /** The login exemption is a prefix test: anything that begins with the login path passes. */
  lemma LoginPrefixExempt(rest: string, token: Option<string>)
    ensures Handle("/admin/login" + rest, token) == Pass
  {
    assert StartsWith("/admin/login" + rest, "/admin/login");
    PrefixesExclusive("/admin/login" + rest);
  }

  /** Any admin API route that contains `/auth/login` anywhere passes without a token. */
  lemma AuthLoginExempt(a: string, b: string, token: Option<string>)
    ensures Handle("/api/admin" + a + "/auth/login" + b, token) == Pass
  {
    var path := "/api/admin" + a + "/auth/login" + b;
    assert OccursAt(path, "/auth/login", |"/api/admin" + a|);
    assert StartsWith(path, "/api/admin");
    PrefixesExclusive(path);
  }

  /** Without a token every other admin API route under the matcher answers 401. */
  lemma AnonymousApi(rest: string)
    requires !Includes("/api/admin/" + rest, "/auth/login")
    ensures Handle("/api/admin/" + rest, None) == Unauthorized
  {
    assert StartsWith("/api/admin/" + rest, "/api/admin/");
    assert StartsWith("/api/admin/" + rest, "/api/admin");
  }

  /**
   * The body alone would redirect `/administrator`, but the matcher only
   * selects `/admin` and paths below it, so the request passes.
   */
  lemma MatcherShieldsLookalikes()
    ensures Decide("/administrator", None) == RedirectToLogin
    ensures Handle("/administrator", None) == Pass
  {
    assert StartsWith("/administrator", "/admin");
    assert "/administrator"[6] != "/admin/"[6];
    assert "/administrator"[6] != "/admin/login"[6];
  }
}
