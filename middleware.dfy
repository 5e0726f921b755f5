/** The backend's request middleware: a path that starts with one of the
    public prefixes passes; otherwise an `/api/` request without an
    Authorization header is refused with 401. */
module Middleware {
  import opened Wrappers
  import opened JsString

  const PublicPaths: seq<string> := ["/", "/api/health", "/api/auth/verify", "/api/auth/register"]

  datatype Decision = Next | Reject(status: nat, error: string)

  /** `publicPaths.some((path) => pathname.startsWith(path))`. */
  predicate IsPublic(pathname: string) {
    exists i :: 0 <= i < |PublicPaths| && StartsWith(pathname, PublicPaths[i])
  }

  /** The header check looks only at whether the value is present and
      non-empty. */
  predicate HasAuthorization(authorization: Option<string>) {
    authorization.Some? && authorization.value != ""
  }

  /** `middleware(request)` as written. */
  function Decide(pathname: string, authorization: Option<string>): (d: Decision)
    ensures d.Reject? ==> d.status == 401 && StartsWith(pathname, "/api/") && !HasAuthorization(authorization)
    ensures IsPublic(pathname) ==> d == Next
  {
    if IsPublic(pathname) then Next
    else if StartsWith(pathname, "/api/") && !HasAuthorization(authorization) then
      Reject(401, "Unauthorized - Missing authorization token")
    else Next
  }

  /** Paths outside `/api/` are never refused. */
  lemma NonApiPasses(pathname: string, authorization: Option<string>)
    requires !StartsWith(pathname, "/api/")
    ensures Decide(pathname, authorization) == Next
  {
  }

  /** Only presence matters: any two non-empty header values give the same
      decision. */
  lemma PresenceOnly(pathname: string, h1: string, h2: string)
    requires h1 != "" && h2 != ""
    ensures Decide(pathname, Some(h1)) == Decide(pathname, Some(h2))
  {
  }

  /** As written, "/" is a public prefix of every path that begins with "/",
      so every such request passes and the 401 branch is unreachable. */
  lemma EveryRootedPathPasses(pathname: string, authorization: Option<string>)
    requires StartsWith(pathname, "/")
    ensures Decide(pathname, authorization) == Next
  {
    assert StartsWith(pathname, PublicPaths[0]);
  }

  /** Concretely: an admin route without a header is let through. */
  lemma AdminRouteWithoutTokenPasses()
    ensures Decide("/api/admin/list-users", None) == Next
  {
    EveryRootedPathPasses("/api/admin/list-users", None);
  }

  /** The evidently intended public test: "/" names the root page only, the
      other entries are prefixes. */
  predicate IsPublicIntended(pathname: string) {
    pathname == "/" || exists i :: 1 <= i < |PublicPaths| && StartsWith(pathname, PublicPaths[i])
  }

  /** `middleware(request)` with "/" matched exactly. */
  function DecideIntended(pathname: string, authorization: Option<string>): (d: Decision)
    ensures IsPublicIntended(pathname) ==> d == Next
  {
    if IsPublicIntended(pathname) then Next
    else if StartsWith(pathname, "/api/") && !HasAuthorization(authorization) then
      Reject(401, "Unauthorized - Missing authorization token")
    else Next
  }

  /** With "/" matched exactly, an `/api/` request outside the public routes
      is refused with 401 exactly when it carries no Authorization header. */
  lemma IntendedGuardsProtectedRoutes(pathname: string, authorization: Option<string>)
    requires StartsWith(pathname, "/api/") && !IsPublicIntended(pathname)
    ensures DecideIntended(pathname, authorization).Reject? <==> !HasAuthorization(authorization)
    ensures DecideIntended(pathname, authorization).Reject? ==> DecideIntended(pathname, authorization).status == 401
  {
  }

  /** The admin route without a header is refused under the intended test. */
  lemma IntendedRefusesAdminRouteWithoutToken()
    ensures DecideIntended("/api/admin/list-users", None) == Reject(401, "Unauthorized - Missing authorization token")
  {
    var p := "/api/admin/list-users";
    assert p[..11][5] == 'a' && "/api/health"[5] == 'h';
    assert p[..16][6] == 'd' && "/api/auth/verify"[6] == 'u';
    assert p[..18][6] == 'd' && "/api/auth/register"[6] == 'u';
    assert p[..5] == "/api/";
  }
}
