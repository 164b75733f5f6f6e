/**
 * The request-side vocabulary the gateway's functions read: JSON values,
 * header lists with their case-insensitive lookup, and the parts of an
 * inbound request that the gates and handlers look at.
 */
module Http {
  import opened Wrappers

  /** A JSON document; objects keep their members in order. */
  datatype Json =
    | JNull
    | JBool(b: bool)
    | JInt(i: int)      // a number without fraction or exponent
    | JFloat(f: real)   // any other number, at its exact decimal value
    | JString(s: string)
    | JArray(items: seq<Json>)
    | JObject(members: seq<(string, Json)>)

  datatype HttpMethod = GET | POST

  /** One header line as the client sent it. */
  datatype Header = Header(name: string, value: string)

  /** The inbound request, reduced to what the gateway's code reads. */
  datatype Request = Request(
    path: string,               // `request.url.path`
    headers: seq<Header>,       // `request.headers`, in arrival order
    jsonBody: Option<Json>)     // what `await request.json()` yields; None when the body is not JSON

  /** The framework exception a handler raises to produce an error reply. */
  datatype HttpException = HttpException(status: int, detail: string)

  function LowerChar(c: char): char {
    if 'A' <= c <= 'Z' then (c as int - 'A' as int + 'a' as int) as char else c
  }

  /** ASCII lower-casing, as header names are compared. */
  function LowerAscii(s: string): (r: string)
    ensures |r| == |s| && forall i :: 0 <= i < |s| ==> r[i] == LowerChar(s[i])
  {
    seq(|s|, i requires 0 <= i < |s| => LowerChar(s[i]))
  }

  /** Header names match without regard to ASCII case. */
  predicate NameMatches(h: Header, name: string) {
    LowerAscii(h.name) == LowerAscii(name)
  }

  /**
   * `request.headers.get(name)`: the value of the FIRST header whose name
   * matches, or None when no header does.
   */
  function GetHeader(headers: seq<Header>, name: string): (v: Option<string>)
    ensures v.None? <==> forall i :: 0 <= i < |headers| ==> !NameMatches(headers[i], name)
    ensures v.Some? ==> (exists i :: 0 <= i < |headers| && NameMatches(headers[i], name)
                                     && headers[i].value == v.value
                                     && forall j :: 0 <= j < i ==> !NameMatches(headers[j], name))
    decreases |headers|
  {
    if |headers| == 0 then None
    else if NameMatches(headers[0], name) then Some(headers[0].value)
    else
      var v := GetHeader(headers[1..], name);
      assert forall i :: 1 <= i < |headers| ==> headers[i] == headers[1..][i - 1];
      v
  }

  /** `name in request.headers`: the same matching rule as `GetHeader`. */
  predicate HasHeader(headers: seq<Header>, name: string) {
    GetHeader(headers, name).Some?
  }
}
