/**
 * Bearer-token extraction (gadm-api/handlers/auth-token-utils.go,
 * `GetAuthTokenFromRequest`), on the value of the request's `Authorization`
 * header; an absent header reads as "".
 */
module AuthToken {
  import opened Wrappers

  datatype AuthError = MissingToken | InvalidBearerFormat | EmptyToken

  const BearerPrefix: string := "Bearer "

  function GetAuthTokenFromHeader(authHeader: string): (r: Result<string, AuthError>)
    ensures r == Failure(MissingToken) <==> authHeader == ""
    ensures r == Failure(InvalidBearerFormat) <==>
      authHeader != "" && !(|authHeader| > |BearerPrefix| && authHeader[..|BearerPrefix|] == BearerPrefix)
    ensures r.Success? ==> r.value != "" && BearerPrefix + r.value == authHeader
    ensures r != Failure(EmptyToken)
  {
    if authHeader != "" then
      if |authHeader| > |BearerPrefix| && authHeader[..|BearerPrefix|] == BearerPrefix then
        var token := authHeader[|BearerPrefix|..];
        assert BearerPrefix + token == authHeader;
        if token == "" then Failure(EmptyToken) else Success(token)
      else Failure(InvalidBearerFormat)
    else Failure(MissingToken)
  }

  /** Any non-empty token sent as `Bearer <token>` is read back unchanged. */
  lemma BearerRoundTrip(token: string)
    requires token != ""
    ensures GetAuthTokenFromHeader(BearerPrefix + token) == Success(token)
  {
    assert (BearerPrefix + token)[..|BearerPrefix|] == BearerPrefix;
    assert (BearerPrefix + token)[|BearerPrefix|..] == token;
  }

  /** The prefix alone, and a prefix in another case, are malformed. */
  lemma MalformedBearerHeaders()
    ensures GetAuthTokenFromHeader("Bearer ") == Failure(InvalidBearerFormat)
    ensures GetAuthTokenFromHeader("bearer x") == Failure(InvalidBearerFormat)
  {
    assert "bearer x"[..|BearerPrefix|] != BearerPrefix by {
      assert "bearer x"[0] != BearerPrefix[0];
    }
  }
}
