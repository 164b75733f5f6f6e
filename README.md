# API gateway: Authorization gates and request forwarding

A model, in Dafny, of the decision logic of a small HTTP API gateway that sits in
front of a user service and a recipe service. The gateway code has three parts,
and the model has them too:

- **The Bearer gate** (`auth_header_check` in `app/main.py`). It reads the first
  `Authorization` header and requires the exact prefix `"Bearer "`. It takes the
  token as the second piece of `split(" ")` and gives it to the token decoder.
  The outcome is either "pass the request on with the decoded payload as its
  user" or one of three 401 replies: `"Authorization header missing or invalid"`,
  `"Token has expired"` or `"Invalid token"`. This is module `BearerAuth`.
- **The presence gate** (`auth_header_check` in `app/middleware.py`). It passes
  the four exact paths `/`, `/docs`, `/openapi.json` and `/favicon.ico` unseen.
  On any other path it answers 401 `{"error": "Authorization header missing"}`
  when there is no `Authorization` header. Otherwise it passes the request on
  unchanged. This is module `PresenceAuth`. Module `GateRelations` compares the
  two gates.
- **The routes and their handlers** (`app/main.py`). The decorators of the four
  forwarding routes and the health check become a static route table, with each
  route's method, path pattern and rate-limit descriptor. Each handler becomes
  two pieces. The first is the one backend call it makes: method, URL, JSON body
  and whether the incoming headers are forwarded. The second is the translation
  of that call's outcome into the reply: the backend's JSON on a 2xx reply; the
  backend's status and body text on any other status; a 500 naming the service
  when the backend cannot be reached. This is module `Gateway`.

Two collaborators are oracles, passed in as function parameters:

- the token decoder, `decode: string -> DecodeOutcome` (a payload, an
  expired-signature error or an invalid-token error);
- the HTTP client, `backend: BackendCall -> Outcome` (a transport error with its
  cause text, or a reply with status, body text and, when the body is JSON, its
  JSON value).

"Rejected before decoding" and "makes no backend call" are stated as
independence: the result is the same whatever the oracle would have returned.
"Only this call is made" is stated the same way: the result depends on the
oracle only through its value at that one call.

Supporting modules: `Wrappers` (an `Option` type), `Text` (Python's
`startswith`, `split` with one separator and its inverse `join`, and the decimal
rendering of an `int` with its parser), and `Http` (JSON values, header lines
with ASCII case-insensitive first-match lookup, the request, and the framework's
`HTTPException`).

Behaviour of the code worth noting:

- Neither gate exempts `/health`. The Bearer gate exempts no path at all.
- An unreachable backend gives 500, never 502.
- A backend reply outside 2xx is raised as an error, with the backend's status
  and its body text as the detail. It is not passed through as a JSON body.
- The single-user route's unreachable text is `"User Service unreachable: "`,
  without "is".
- Rate limits are keyed on the client's remote address, not on a token subject.
  Only the descriptor strings are modelled.
- Registration is forwarded to the user service's `/register`, not to
  `/users/register`.

## Model

| member | source | states |
|---|---|---|
| Text.Split | app/main.py:24 | `split(" ")` never returns an empty list and no piece contains the separator; the first piece is a prefix of the string that ends at the string's end or at a separator |
| Text.JoinSplit | app/main.py:24 | joining the pieces of a split with the same separator gives back the original string |
| Text.SplitJoin | app/main.py:24 | a non-empty list of separator-free pieces is recovered exactly by splitting its join |
| Text.SplitCons | app/main.py:21-24 | a separator-free word followed by the separator splits into that word followed by the split of the rest (so "Bearer " + rest has at least two pieces) |
| Text.NatToDecimal | app/main.py:76 | the rendering of a natural number is a non-empty digit string with no leading zero except for 0 itself |
| Text.NatDecimalRoundTrip | app/main.py:76 | reading back the decimal rendering of a natural number gives the number |
| Text.IntDecimalRoundTrip | app/main.py:76 | parsing the f-string rendering of any int (minus sign for negatives) gives the int back |
| Text.IntToDecimalInjective | app/main.py:76 | distinct user ids render to distinct path segments |
| Http.GetHeader | app/main.py:20 | the header lookup returns None exactly when no header name matches without regard to ASCII case, and otherwise the value of the first matching header |
| BearerAuth.Token | app/main.py:24 | once the prefix check has passed the token exists; it is the text after "Bearer " up to the next space or the end, possibly empty, and contains no space |
| BearerAuth.TokenUnique | app/main.py:24 | that description fixes the token: any text meeting it equals the token |
| BearerAuth.AuthHeaderCheck | app/main.py:16-33 | every rejection is a 401; "Authorization header missing or invalid" exactly when the header is absent or lacks the prefix; with the prefix, "Token has expired" exactly on an expired signature, "Invalid token" exactly on an invalid token, and pass-on exactly on a successful decode with the decoded payload recorded as the user and the request otherwise unchanged |
| BearerAuth.RejectedBeforeDecoding | app/main.py:20-22 | without a Bearer header the reply is the missing-or-invalid 401 whatever the decoder would say |
| BearerAuth.OnlyTheTokenIsDecoded | app/main.py:24-26 | the verdict depends on the decoder only through its answer for the extracted token |
| BearerAuth.TokenStopsAtSpace | app/main.py:24 | "Bearer abc def" yields the token "abc" |
| BearerAuth.EmptyTokens | app/main.py:24 | "Bearer  abc" and "Bearer " both yield the empty token |
| BearerAuth.PrefixIsExact | app/main.py:21-22 | "bearer x" (lower case) and "Bearer" (no space) are both refused before decoding |
| PresenceAuth.AuthHeaderCheck | app/middleware.py:4-13 | the request is passed on unchanged exactly when its path is exempt or it has an Authorization header; otherwise the reply is 401 with body {"error": "Authorization header missing"} |
| PresenceAuth.ExemptIsExact | app/middleware.py:5 | the exempt paths are exactly "/", "/docs", "/openapi.json" and "/favicon.ico" |
| PresenceAuth.NearMissesAreNotExempt | app/middleware.py:5 | "/docs/", "/DOCS", "/health", "" and "/openapi.json/" are not exempt |
| PresenceAuth.ExemptPassesWithAnyHeaders | app/middleware.py:5-6 | on an exempt path the request passes on unchanged with any headers at all |
| PresenceAuth.PresenceSuffices | app/middleware.py:8-13 | an Authorization header anywhere in the list, in any ASCII case and with any value (empty or another scheme), is enough to pass the request on unchanged |
| PresenceAuth.OnlyPresenceDecides | app/middleware.py:8-13 | off the exempt paths the verdict depends only on whether the header is present |
| PresenceAuth.NoHeaderIsRefused | app/middleware.py:8-11 | "/users" without headers gets the fixed 401 reply |
| GateRelations.BearerIsStricter | app/main.py:16-33 | every request the Bearer gate passes on, the presence gate passes on unchanged |
| GateRelations.PresenceIsLaxer | app/middleware.py:5-13 | a "Basic" header on "/users" and a header-less "/docs" pass the presence gate and are refused by the Bearer gate |
| Gateway.RouteLimits | app/main.py:35-111 | "10/minute" exactly on GET /users and POST /recipes, "5/minute" exactly on GET /users/{user_id} and POST /users/register, no limit exactly on /health |
| Gateway.RouteTableUnambiguous | app/main.py:35-106 | no two routes share a method and a path pattern |
| Gateway.BackendCallOf | app/main.py:41-97 | a call is made except for the health check and for a POST whose body is not JSON; it uses the route's own method; it carries the request's JSON exactly on the two POST routes when that JSON is not `null`; it forwards the incoming headers exactly on the single-user route |
| Gateway.BackendTargets | app/main.py:43-97 | the URLs are the user service + "/users", the recipe service + "/recipes", the user service + "/users/" + the id, and the user service + "/register" (not "/users/register") |
| Gateway.NullBodyIsNotSent | app/main.py:57-60 | a POST body of JSON `null` reads as Python `None`, and `json=None` sends no body: both POST routes then call their backend with no body |
| Gateway.GetUserExample | app/main.py:75-77 | user 42 is fetched by GET from "http://localhost:8001/users/42" with the incoming headers |
| Gateway.BackendCallsDistinct | app/main.py:43-97 | two different endpoints never make the same backend call (method and URL) |
| Gateway.Translate | app/main.py:42-49 | a 2xx reply with JSON returns that JSON; a 2xx reply without JSON is an uncaught error; any other status is raised with the same status and the backend's text; a transport error is raised as 500 whose detail is the service text followed by the cause |
| Gateway.Handle | app/main.py:35-111 | the health check always returns {"status": "ok"}; a route that makes no call fails with the framework's 500; otherwise each kind of reply determines what the backend answered (success JSON, error status and text, or transport error with the route's text) |
| Gateway.NoCallNoBackend | app/main.py:53-60 | a route that makes no call replies the same whatever the backend would do |
| Gateway.OnlyTheNamedCallMatters | app/main.py:41-103 | the reply depends on the backend only through its answer to the one named call |
| Gateway.SuccessPassesThrough | app/main.py:44-45 | a 2xx backend reply with a JSON body reaches the client as that JSON |
| Gateway.ErrorPassesThrough | app/main.py:48-49 | a non-2xx backend reply reaches the client with the same status and the backend's body text as the detail |
| Gateway.UnreachableTexts | app/main.py:46-101 | for every cause and every user id, a transport error gives 500 with "User Service is unreachable: ", "Recipe Service is unreachable: " or, on the single-user route only, "User Service unreachable: ", followed by the cause |
| Gateway.FiveHundredIsAmbiguous | app/main.py:46-49 | a lost connection and a backend 500 carrying the same text give the same reply |

## Left out

- HTTP transport and the web framework: the asynchronous HTTP client, `async`/`await`, request and response objects, and router registration. A backend call is the `backend` oracle, and a reply is the `Reply` value a handler produces. The status 200 of a returned body and the 500 of an uncaught exception come from the framework and are not modelled further.
- Token verification: the decoder with its key and algorithm is the `decode` oracle. `app/main.py` never imports or defines the decoder module, the key, the algorithm or the two error types. As written, any request that gets past the prefix check would fail on an undefined name. The model gives the gate the decoder it evidently expects.
- Neither gate is registered as middleware, and `app/main.py` does not import `app/middleware.py`. The model states what each function does when called. It does not claim that either runs for any route. It also leaves out how the framework would treat an `HTTPException` raised from middleware.
- Rate limiting: counting, windows and concurrency belong to an external library that is not part of this model. Only each route's descriptor string is kept.
- Route registration: `app.include_router(router)` runs twice (app/main.py:87 and 113), so three routes are registered twice and the registration route only by the second call. Dispatch takes the first match, so replies do not change. `RouteTableUnambiguous` is about the declared decorators, not the framework's registered route list.
- Route dispatch, and the framework's conversion of `user_id` to `int` with its 422 reply: the endpoint is given, with `user_id` already an `int`.
- Header storage: `GetHeader` follows the framework's lookup (ASCII case-insensitive names, first match wins). Latin-1 decoding of header bytes is not modelled.
- The text of a transport error (`cause`) is opaque. The client's default timeout is not modelled.
- IsSuccess: the model takes the HTTP client's success test to be "status in 200-299", the rule of current releases of that client; releases that raised only on 4xx and 5xx are not modelled.
- JSON parsing is not modelled: `Request.jsonBody` and `Outcome.json` already hold its result, or None when the body is not JSON. Fractional numbers are `JFloat` at their exact decimal value; the rounding of Python floats is not modelled.
- Exceptions that none of the handlers catch, other than unreadable JSON, are not modelled.
- `app/routes.py` is not part of this model. Its handlers return constant messages, and its router is never included.
