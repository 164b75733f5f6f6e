/**
 * The Bearer-scheme gate of app/main.py (`auth_header_check`): it reads the
 * first Authorization header, demands the literal "Bearer " prefix, takes
 * the token as the second piece of a split on single spaces, hands it to the
 * token decoder and turns the decoder's verdict into either "pass the request
 * on with its user recorded" or one of three 401 replies.
 *
 * The decoder (`jwt.decode` with the service's key and algorithm) is not part
 * of this model: it is the parameter `decode`, an oracle from token text to
 * one of its three results.
 */
module BearerAuth {
  import opened Wrappers
  import opened Text
  import opened Http

  const BearerPrefix: string := "Bearer "
  const MissingOrInvalid: string := "Authorization header missing or invalid"
  const TokenExpired: string := "Token has expired"
  const TokenInvalid: string := "Invalid token"

  /**
   * What the decoder does with a token: return its payload, or raise the
   * expired-signature error, or raise any other invalid-token error. The
   * expired error is a kind of invalid-token error; the gate catches it first,
   * so it is a case of its own here.
   */
  datatype DecodeOutcome = Decoded(payload: Json) | ExpiredSignature | InvalidToken

  /** The gate's verdict: hand the request on with the decoded user, or raise. */
  datatype GateResult =
    | CallNext(request: Request, user: Json)   // `request.state.user = payload`, then `call_next(request)`
    | Reject(error: HttpException)

  /** The header value the gate reads: the first Authorization header, if any. */
  function Authorization(request: Request): Option<string> {
    GetHeader(request.headers, "Authorization")
  }

  /** The request carries an Authorization header that starts with "Bearer ". */
  predicate HasBearer(request: Request) {
    Authorization(request).Some? && StartsWith(Authorization(request).value, BearerPrefix)
  }

  /** The text after "Bearer ": the characters from which the token is taken. */
  function AfterPrefix(header: string): string
    requires StartsWith(header, BearerPrefix)
  {
    header[|BearerPrefix|..]
  }

  /** `t` is the text after "Bearer " up to (not including) the next space or the end. */
  predicate IsTokenOf(header: string, t: string)
    requires StartsWith(header, BearerPrefix)
  {
    var rest := AfterPrefix(header);
    StartsWith(rest, t) && ' ' !in t && (|t| == |rest| || rest[|t|] == ' ')
  }

  /**
   * `auth_header.split(" ")[1]`. Once the prefix check has passed the split has
   * at least two pieces, so taking the second cannot fail. The piece is the
   * text after "Bearer " up to the next space; it is empty when another space
   * follows the prefix directly or nothing follows it.
   */
  function Token(header: string): (t: string)
    requires StartsWith(header, BearerPrefix)
    ensures IsTokenOf(header, t)
  {
    var rest := AfterPrefix(header);
    assert header == "Bearer" + [' '] + rest;
    SplitCons("Bearer", ' ', rest);
    Split(header, ' ')[1]
  }

  /** The token is the ONLY text with the properties `Token` promises. */
  lemma TokenUnique(header: string, t: string)
    requires StartsWith(header, BearerPrefix)
    requires IsTokenOf(header, t)
    ensures t == Token(header)
  {
    var u := Token(header);
    var rest := AfterPrefix(header);
    assert |t| == |u|;
    assert t == rest[..|t|] == u;
  }

  /** The gate of app/main.py, with the decoder as a parameter. */
  function AuthHeaderCheck(request: Request, decode: string -> DecodeOutcome): (r: GateResult)
    ensures r.Reject? ==> r.error.status == 401
    ensures r == Reject(HttpException(401, MissingOrInvalid)) <==> !HasBearer(request)
    ensures HasBearer(request) ==>
      var d := decode(Token(Authorization(request).value));
      && (r == Reject(HttpException(401, TokenExpired)) <==> d.ExpiredSignature?)
      && (r == Reject(HttpException(401, TokenInvalid)) <==> d.InvalidToken?)
      && (r.CallNext? <==> d.Decoded?)
    ensures r.CallNext? ==>
      && HasBearer(request)
      && r.request == request
      && r.user == decode(Token(Authorization(request).value)).payload
  {
    match Authorization(request)
    case None => Reject(HttpException(401, MissingOrInvalid))
    case Some(header) =>
      if header == "" || !StartsWith(header, BearerPrefix) then
        Reject(HttpException(401, MissingOrInvalid))
      else
        match decode(Token(header))
        case Decoded(payload) => CallNext(request, payload)
        case ExpiredSignature => Reject(HttpException(401, TokenExpired))
        case InvalidToken => Reject(HttpException(401, TokenInvalid))
  }

  /** A request without a Bearer header is turned away whatever the decoder would say: it is never consulted. */
  lemma RejectedBeforeDecoding(request: Request, d1: string -> DecodeOutcome, d2: string -> DecodeOutcome)
    requires !HasBearer(request)
    ensures AuthHeaderCheck(request, d1) == AuthHeaderCheck(request, d2)
    ensures AuthHeaderCheck(request, d1) == Reject(HttpException(401, MissingOrInvalid))
  {
  }

  /** The decoder is consulted on the token alone: two decoders that agree on it give the same verdict. */
  lemma OnlyTheTokenIsDecoded(request: Request, d1: string -> DecodeOutcome, d2: string -> DecodeOutcome)
    requires HasBearer(request)
    requires d1(Token(Authorization(request).value)) == d2(Token(Authorization(request).value))
    ensures AuthHeaderCheck(request, d1) == AuthHeaderCheck(request, d2)
  {
  }

  /** The token ends at the first space after the prefix: "Bearer abc def" yields "abc". */
  lemma TokenStopsAtSpace()
    ensures Token("Bearer abc def") == "abc"
  {
    var h := "Bearer abc def";
    assert AfterPrefix(h) == "abc def";
    TokenUnique(h, "abc");
  }

  /** A second space right after the prefix yields the empty token, as does a bare "Bearer ". */
  lemma EmptyTokens()
    ensures Token("Bearer  abc") == ""
    ensures Token("Bearer ") == ""
  {
    assert AfterPrefix("Bearer  abc") == " abc";
    TokenUnique("Bearer  abc", "");
    assert AfterPrefix("Bearer ") == "";
    TokenUnique("Bearer ", "");
  }

  /** The prefix is case-sensitive and needs its space: "bearer x" and "Bearer" are both refused. */
  lemma PrefixIsExact(path: string, decode: string -> DecodeOutcome)
    ensures AuthHeaderCheck(Request(path, [Header("Authorization", "bearer x")], None), decode)
         == Reject(HttpException(401, MissingOrInvalid))
    ensures AuthHeaderCheck(Request(path, [Header("Authorization", "Bearer")], None), decode)
         == Reject(HttpException(401, MissingOrInvalid))
  {
    assert "bearer x"[..7] != BearerPrefix by { assert "bearer x"[0] != BearerPrefix[0]; }
  }
}
