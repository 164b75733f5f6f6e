/**
 * The presence-only gate of app/middleware.py (`auth_header_check`): four
 * exact paths are let through untouched; on any other path a request with
 * no Authorization header gets a fixed 401 reply, and a request with one,
 * whatever its value, is let through untouched.
 */
module PresenceAuth {
  import opened Wrappers
  import opened Http

  /** The exempt paths, compared as whole strings. */
  const ExemptPaths: seq<string> := ["/", "/docs", "/openapi.json", "/favicon.ico"]

  /** The JSON body of the rejection: `{"error": "Authorization header missing"}`. */
  const MissingHeaderBody: Json := JObject([("error", JString("Authorization header missing"))])

  /** The gate's verdict: `call_next(request)` on the unchanged request, or a JSON reply. */
  datatype MiddlewareResult = PassOn(request: Request) | Respond(status: int, body: Json)

  function AuthHeaderCheck(request: Request): (r: MiddlewareResult)
    ensures r.PassOn? ==> r.request == request
    ensures r.PassOn? <==> request.path in ExemptPaths || HasHeader(request.headers, "Authorization")
    ensures r.Respond? ==> r == Respond(401, MissingHeaderBody)
  {
    if request.path in ExemptPaths then PassOn(request)
    else if !HasHeader(request.headers, "Authorization") then Respond(401, MissingHeaderBody)
    else PassOn(request)
  }

  /** Exemption is whole-string membership in the four paths and nothing else. */
  lemma ExemptIsExact(p: string)
    ensures p in ExemptPaths <==> p == "/" || p == "/docs" || p == "/openapi.json" || p == "/favicon.ico"
  {
  }

  /** Near misses are not exempt: a trailing slash, a different case, or the health route. */
  lemma NearMissesAreNotExempt()
    ensures "/docs/" !in ExemptPaths && "/DOCS" !in ExemptPaths && "/health" !in ExemptPaths
    ensures "" !in ExemptPaths && "/openapi.json/" !in ExemptPaths
  {
  }

  /** On an exempt path the headers are never looked at: any header list passes. */
  lemma ExemptPassesWithAnyHeaders(request: Request, headers: seq<Header>)
    requires request.path in ExemptPaths
    ensures AuthHeaderCheck(request.(headers := headers)) == PassOn(request.(headers := headers))
  {
  }

  /**
   * Presence alone is enough: a request with a header named Authorization
   * (in any ASCII case, anywhere in the list) passes whatever that header's
   * value is, the empty value and other schemes included.
   */
  lemma PresenceSuffices(request: Request, i: nat)
    requires i < |request.headers|
    requires LowerAscii(request.headers[i].name) == LowerAscii("Authorization")
    ensures AuthHeaderCheck(request) == PassOn(request)
  {
    assert NameMatches(request.headers[i], "Authorization");
  }

  /** On a path that is not exempt, the verdict depends on nothing but whether the header is present. */
  lemma OnlyPresenceDecides(r1: Request, r2: Request)
    requires r1.path !in ExemptPaths && r2.path !in ExemptPaths
    requires HasHeader(r1.headers, "Authorization") == HasHeader(r2.headers, "Authorization")
    ensures AuthHeaderCheck(r1).PassOn? == AuthHeaderCheck(r2).PassOn?
    ensures AuthHeaderCheck(r1).Respond? ==> AuthHeaderCheck(r1) == AuthHeaderCheck(r2)
  {
  }

  /** Without any header, "/users" is refused with the fixed reply. */
  lemma NoHeaderIsRefused(body: Option<Json>)
    ensures AuthHeaderCheck(Request("/users", [], body)) == Respond(401, MissingHeaderBody)
  {
  }
}
