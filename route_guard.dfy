/**
 * The Next.js middleware's decision for a request: let it through, or send
 * it to `/login`. Which paths reach the middleware (its `matcher`) is not
 * modelled; the decision itself is.
 */
module RouteGuard {
  import opened Wrappers
  import opened Text
  import opened AdminAuth

  datatype Decision = Next | RedirectToLogin

  /** The middleware as written: `verify` is what `verifyToken` does with the token. */
  function Middleware(pathname: string, token: Option<string>, verify: Verification): (d: Decision)
    ensures !StartsWith(pathname, "/admin") ==> d == Next
    ensures pathname == "/admin" ==> d == Next
    ensures StartsWith(pathname, "/admin") && pathname != "/admin" ==>
      (d == Next <==> AuthenticateAdmin(token, verify).Some?)
  {
    if StartsWith(pathname, "/admin") then
      if pathname == "/admin" || pathname == "/login" then Next
      else if !Truthy(token) then RedirectToLogin
      else match verify
        case Threw => RedirectToLogin
        case Decoded(decoded) =>
          if decoded.None? || decoded.value.accessLevel != AdminLevel then RedirectToLogin else Next
    else Next
  }

  /** The `/login` test sits inside the `/admin` branch, where it never holds. */
  lemma LoginExemptionUnreachable(pathname: string)
    requires StartsWith(pathname, "/admin")
    ensures pathname != "/login"
  {
    assert pathname[..6] == "/admin";
    assert pathname[1] == "/admin"[1] == 'a';
  }

  /** An admin path other than `/admin` needs a token; a missing one redirects. */
  lemma MissingTokenRedirects(pathname: string, verify: Verification)
    requires StartsWith(pathname, "/admin") && pathname != "/admin"
    ensures Middleware(pathname, None, verify) == RedirectToLogin
    ensures Middleware(pathname, Some(""), verify) == RedirectToLogin
  {
  }
}
