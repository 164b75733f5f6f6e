/**
 * How the two Authorization gates relate. They are separate functions in
 * separate files and neither calls the other; these lemmas compare them on
 * the same request.
 */
module GateRelations {
  import opened Wrappers
  import opened Http
  import BearerAuth
  import PresenceAuth

  /** Whatever the Bearer gate lets through, the presence gate lets through too. */
  lemma BearerIsStricter(request: Request, decode: string -> BearerAuth.DecodeOutcome)
    requires BearerAuth.AuthHeaderCheck(request, decode).CallNext?
    ensures PresenceAuth.AuthHeaderCheck(request) == PresenceAuth.PassOn(request)
  {
  }

  /**
   * The converse fails twice over: the presence gate passes a non-Bearer header
   * and an exempt path without any header, and the Bearer gate refuses both.
   */
  lemma PresenceIsLaxer(decode: string -> BearerAuth.DecodeOutcome)
    ensures var r := Request("/users", [Header("Authorization", "Basic abc")], None);
      && PresenceAuth.AuthHeaderCheck(r).PassOn?
      && BearerAuth.AuthHeaderCheck(r, decode) == BearerAuth.Reject(HttpException(401, BearerAuth.MissingOrInvalid))
    ensures var r := Request("/docs", [], None);
      && PresenceAuth.AuthHeaderCheck(r).PassOn?
      && BearerAuth.AuthHeaderCheck(r, decode) == BearerAuth.Reject(HttpException(401, BearerAuth.MissingOrInvalid))
  {
    var r := Request("/users", [Header("Authorization", "Basic abc")], None);
    assert NameMatches(r.headers[0], "Authorization");
    assert "Basic abc"[1] != BearerAuth.BearerPrefix[1];
  }
}
