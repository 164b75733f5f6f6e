/**
 * The forwarding half of app/main.py: the static route table its decorators
 * declare, the backend call each handler makes, and the translation of the
 * call's outcome into the gateway's reply.
 *
 * The HTTP client is not part of this model. A handler's one backend call is
 * the parameter `backend`, an oracle from the call it is asked to make to
 * what came of it.
 */
module Gateway {
  import opened Wrappers
  import opened Text
  import opened Http

  const UserServiceUrl: string := "http://localhost:8001"
  const RecipeServiceUrl: string := "http://localhost:8002"

  /** The gateway's routes. `GetUser` carries its path parameter, already an `int`. */
  datatype Endpoint = GetUsers | CreateRecipe | GetUser(userId: int) | RegisterUser | Health

  /** What a route's decorators declare: its method, its path pattern and its rate-limit descriptor. */
  datatype Route = Route(verb: HttpMethod, path: string, limit: Option<string>)

  function RouteOf(e: Endpoint): Route {
    match e
    case GetUsers => Route(GET, "/users", Some("10/minute"))
    case CreateRecipe => Route(POST, "/recipes", Some("10/minute"))
    case GetUser(_) => Route(GET, "/users/{user_id}", Some("5/minute"))
    case RegisterUser => Route(POST, "/users/register", Some("5/minute"))
    case Health => Route(GET, "/health", None)
  }

  /** The five routes, in declaration order. */
  const RouteTable: seq<Route> :=
    [RouteOf(GetUsers), RouteOf(CreateRecipe), RouteOf(GetUser(0)), RouteOf(RegisterUser), RouteOf(Health)]

  /**
   * The limits the decorators attach: ten a minute for the two listing and
   * creation routes, five a minute for the two routes about one user, none
   * on the health check.
   */
  lemma RouteLimits(e: Endpoint)
    ensures RouteOf(e).limit == Some("10/minute") <==> e == GetUsers || e == CreateRecipe
    ensures RouteOf(e).limit == Some("5/minute") <==> e.GetUser? || e == RegisterUser
    ensures RouteOf(e).limit == None <==> e == Health
  {
  }

  /** No two routes of the table share a method and a path pattern. */
  lemma RouteTableUnambiguous(i: nat, j: nat)
    requires i < j < |RouteTable|
    ensures (RouteTable[i].verb, RouteTable[i].path) != (RouteTable[j].verb, RouteTable[j].path)
  {
  }

  /**
   * The one call a handler makes: method, full URL, JSON body and headers.
   * `json == None` means no body: the client encodes a JSON body only for a
   * value other than Python's `None`, which is what a request body of JSON
   * `null` reads as. `headers == None` means the client's own default headers
   * only; `Some(hs)` means `hs` are passed to the client, which merges its
   * defaults under them.
   */
  datatype BackendCall = BackendCall(verb: HttpMethod, url: string, json: Option<Json>, headers: Option<seq<Header>>)

  /** The body sent for `json=body`: none when the body read as JSON `null`, the value otherwise. */
  function JsonArgument(body: Json): Option<Json> {
    if body == JNull then None else Some(body)
  }

  /**
   * The backend call a route makes for a request, or None when it makes none:
   * the health check calls nothing, and the two POST routes stop at reading
   * the request body when it is not JSON.
   */
  function BackendCallOf(e: Endpoint, request: Request): (c: Option<BackendCall>)
    ensures c.None? <==> e == Health || ((e == CreateRecipe || e == RegisterUser) && request.jsonBody.None?)
    ensures c.Some? ==>
      && c.value.verb == RouteOf(e).verb
      && (c.value.json.Some? <==> (e == CreateRecipe || e == RegisterUser) && request.jsonBody != Some(JNull))
      && (c.value.json.Some? ==> c.value.json == request.jsonBody)
      && (c.value.headers.Some? <==> e.GetUser?)
      && (c.value.headers.Some? ==> c.value.headers.value == request.headers)
  {
    match e
    case GetUsers => Some(BackendCall(GET, UserServiceUrl + "/users", None, None))
    case CreateRecipe =>
      if request.jsonBody.None? then None
      else Some(BackendCall(POST, RecipeServiceUrl + "/recipes", JsonArgument(request.jsonBody.value), None))
    case GetUser(id) => Some(BackendCall(GET, UserServiceUrl + "/users/" + IntToDecimal(id), None, Some(request.headers)))
    case RegisterUser =>
      if request.jsonBody.None? then None
      else Some(BackendCall(POST, UserServiceUrl + "/register", JsonArgument(request.jsonBody.value), None))
    case Health => None
  }

  /** The backend each route reaches. Registration goes to "/register", not to "/users/register". */
  lemma BackendTargets(request: Request, id: int)
    ensures BackendCallOf(GetUsers, request).value.url == "http://localhost:8001/users"
    ensures request.jsonBody.Some? ==> BackendCallOf(CreateRecipe, request).value.url == "http://localhost:8002/recipes"
    ensures BackendCallOf(GetUser(id), request).value.url == "http://localhost:8001/users/" + IntToDecimal(id)
    ensures request.jsonBody.Some? ==> BackendCallOf(RegisterUser, request).value.url == "http://localhost:8001/register"
    ensures request.jsonBody.Some? ==> BackendCallOf(RegisterUser, request).value.url != UserServiceUrl + "/users/register"
  {
    if request.jsonBody.Some? {
      assert BackendCallOf(RegisterUser, request).value.url[22] != (UserServiceUrl + "/users/register")[22];
    }
  }

  /** A POST body of JSON `null` reaches the backend as a POST with no body. */
  lemma NullBodyIsNotSent(path: string, headers: seq<Header>)
    ensures BackendCallOf(CreateRecipe, Request(path, headers, Some(JNull)))
         == Some(BackendCall(POST, RecipeServiceUrl + "/recipes", None, None))
    ensures BackendCallOf(RegisterUser, Request(path, headers, Some(JNull)))
         == Some(BackendCall(POST, UserServiceUrl + "/register", None, None))
  {
  }

  /** A user's details are fetched from the user's own backend path: `GetUser(42)` asks for ".../users/42". */
  lemma GetUserExample(request: Request)
    ensures BackendCallOf(GetUser(42), request)
         == Some(BackendCall(GET, "http://localhost:8001/users/42", None, Some(request.headers)))
  {
    assert NatToDecimal(4) == "4" && DigitChar(2) == '2';
    assert IntToDecimal(42) == NatToDecimal(4) + [DigitChar(2)] == "42";
    assert UserServiceUrl + "/users/" + "42" == "http://localhost:8001/users/42";
  }

  /** Different endpoints never make the same backend call: distinct user ids reach distinct URLs. */
  lemma BackendCallsDistinct(e1: Endpoint, e2: Endpoint, request: Request)
    requires e1 != e2
    requires BackendCallOf(e1, request).Some? && BackendCallOf(e2, request).Some?
    ensures BackendCallOf(e1, request).value.verb != BackendCallOf(e2, request).value.verb
         || BackendCallOf(e1, request).value.url != BackendCallOf(e2, request).value.url
  {
    if e1.GetUser? && e2.GetUser? {
      var c1, c2 := BackendCallOf(e1, request).value, BackendCallOf(e2, request).value;
      var prefix := UserServiceUrl + "/users/";
      assert c1.url[|prefix|..] == IntToDecimal(e1.userId);
      assert c2.url[|prefix|..] == IntToDecimal(e2.userId);
      if c1.url == c2.url {
        IntToDecimalInjective(e1.userId, e2.userId);
      }
    }
  }

  /** What came of the backend call. */
  datatype Outcome =
    | TransportError(cause: string)                              // the request never got a reply; `cause` is the error's text
    | Responded(status: int, text: string, json: Option<Json>)   // the reply: status, body text, and the body as JSON when it is JSON

  /** What the handler produces. */
  datatype Reply =
    | Returned(body: Json)          // a JSON body, sent with status 200
    | Raised(error: HttpException)  // an error reply with this status and detail
    | ServerError                   // an exception no handler catches: the framework's bare 500

  /** A backend status counts as success exactly in the 2xx range; every other status is raised as an error. */
  predicate IsSuccess(status: int) {
    200 <= status < 300
  }

  /** The text that opens the 500 detail when the route's backend is unreachable. */
  function UnreachablePrefix(e: Endpoint): string {
    match e
    case GetUsers => "User Service is unreachable: "
    case CreateRecipe => "Recipe Service is unreachable: "
    case GetUser(_) => "User Service unreachable: "
    case RegisterUser => "User Service is unreachable: "
    case Health => ""
  }

  /** The same try/except in every forwarding handler, for the route whose unreachable text opens with `prefix`. */
  function Translate(prefix: string, o: Outcome): (r: Reply)
    ensures r.Returned? <==> o.Responded? && IsSuccess(o.status) && o.json.Some?
    ensures r.Returned? ==> r.body == o.json.value
    ensures r == ServerError <==> o.Responded? && IsSuccess(o.status) && o.json.None?
    ensures o.TransportError? ==>
      && r.Raised? && r.error.status == 500
      && StartsWith(r.error.detail, prefix) && r.error.detail[|prefix|..] == o.cause
    ensures o.Responded? && !IsSuccess(o.status) ==> r.Raised? && r.error == HttpException(o.status, o.text)
  {
    match o
    case TransportError(cause) => Raised(HttpException(500, prefix + cause))
    case Responded(status, text, json) =>
      if !IsSuccess(status) then Raised(HttpException(status, text))
      else if json.None? then ServerError
      else Returned(json.value)
  }

  /** The `{"status": "ok"}` body of the health check. */
  const HealthBody: Json := JObject([("status", JString("ok"))])

  /** One route's handler, given the request and the backend oracle. */
  function Handle(e: Endpoint, request: Request, backend: BackendCall -> Outcome): (r: Reply)
    ensures e == Health ==> r == Returned(HealthBody)
    ensures e != Health && BackendCallOf(e, request).None? ==> r == ServerError
    ensures BackendCallOf(e, request).Some? ==>
      var o := backend(BackendCallOf(e, request).value);
      && (r.Returned? ==> o.Responded? && IsSuccess(o.status) && o.json == Some(r.body))
      && (r.Raised? && r.error.status != 500 ==>
            o.Responded? && o.status == r.error.status && o.text == r.error.detail && !IsSuccess(o.status))
      && (r.Raised? && r.error.status == 500 ==>
            (o.Responded? && o.status == 500 && o.text == r.error.detail)
            || (o.TransportError? && r.error.detail == UnreachablePrefix(e) + o.cause))
      && (r == ServerError ==> o.Responded? && IsSuccess(o.status) && o.json.None?)
  {
    if e == Health then Returned(HealthBody)
    else
      match BackendCallOf(e, request)
      case None => ServerError
      case Some(call) => Translate(UnreachablePrefix(e), backend(call))
  }

  /** A route that makes no call gives the same reply whatever the backend would have done. */
  lemma NoCallNoBackend(e: Endpoint, request: Request, b1: BackendCall -> Outcome, b2: BackendCall -> Outcome)
    requires BackendCallOf(e, request).None?
    ensures Handle(e, request, b1) == Handle(e, request, b2)
  {
  }

  /** A route's reply depends on the backend only through the one call `BackendCallOf` names. */
  lemma OnlyTheNamedCallMatters(e: Endpoint, request: Request, b1: BackendCall -> Outcome, b2: BackendCall -> Outcome)
    requires BackendCallOf(e, request).Some?
    requires b1(BackendCallOf(e, request).value) == b2(BackendCallOf(e, request).value)
    ensures Handle(e, request, b1) == Handle(e, request, b2)
  {
  }

  /** A backend reply in the 2xx range with a JSON body reaches the client as that same JSON. */
  lemma SuccessPassesThrough(e: Endpoint, request: Request, backend: BackendCall -> Outcome, status: int, text: string, body: Json)
    requires BackendCallOf(e, request).Some?
    requires backend(BackendCallOf(e, request).value) == Responded(status, text, Some(body))
    requires IsSuccess(status)
    ensures Handle(e, request, backend) == Returned(body)
  {
  }

  /** A backend error status reaches the client with the same status and the backend's body text as the detail. */
  lemma ErrorPassesThrough(e: Endpoint, request: Request, backend: BackendCall -> Outcome, status: int, text: string, json: Option<Json>)
    requires BackendCallOf(e, request).Some?
    requires backend(BackendCallOf(e, request).value) == Responded(status, text, json)
    requires !IsSuccess(status)
    ensures Handle(e, request, backend) == Raised(HttpException(status, text))
  {
  }

  /** The unreachable texts name the service; only the single-user route leaves out "is". */
  lemma UnreachableTexts(request: Request, cause: string, id: int)
    ensures var b := (c: BackendCall) => TransportError(cause);
      && Handle(GetUsers, request, b) == Raised(HttpException(500, "User Service is unreachable: " + cause))
      && Handle(GetUser(id), request, b) == Raised(HttpException(500, "User Service unreachable: " + cause))
      && (request.jsonBody.Some? ==>
            && Handle(CreateRecipe, request, b) == Raised(HttpException(500, "Recipe Service is unreachable: " + cause))
            && Handle(RegisterUser, request, b) == Raised(HttpException(500, "User Service is unreachable: " + cause)))
  {
  }

  /**
   * The reply alone cannot tell a lost connection from a backend that itself
   * answered 500 with the same words.
   */
  lemma FiveHundredIsAmbiguous(request: Request, cause: string)
    ensures var lost := (c: BackendCall) => TransportError(cause);
      var failed := (c: BackendCall) => Responded(500, "User Service is unreachable: " + cause, None);
      Handle(GetUsers, request, lost) == Handle(GetUsers, request, failed)
  {
  }
}
