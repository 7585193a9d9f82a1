/** The authentication middleware: a four-way decision on the access token
    and on what the token manager's `verify` does with it. */
module AuthenticationMiddleware {
  import opened Shared
  import opened Records
  import opened Errors
  import opened Ports
  import opened Http

  /** The one error every rejected token is reported with. */
  function InvalidTokenError(): Error
  {
    PlainError("Invalid token.")
  }

  /** `handle({ accessToken })`; None stands for a null token. */
  function Handle(tokenManager: TokenManager, accessToken: Option<string>): (r: HttpResponse)
    ensures r.statusCode == 200 || r.statusCode == 403 || r.statusCode == 500
    ensures (accessToken.None? || accessToken == Some("")) ==> r == Forbidden(InvalidTokenError())
    ensures r.statusCode == 200 <==>
      accessToken.Some? && accessToken.value != "" &&
      tokenManager.verify(accessToken.value).Returned? && tokenManager.verify(accessToken.value).result.Right?
    ensures r.statusCode == 200 ==> r.body == PayloadBody(tokenManager.verify(accessToken.value).result.right)
    ensures r.statusCode == 403 ==> r.body == ErrorBody(InvalidTokenError())
    ensures r.statusCode == 500 <==>
      accessToken.Some? && accessToken.value != "" && tokenManager.verify(accessToken.value).Threw?
    ensures r.statusCode == 500 ==> r.body == ErrorBody(tokenManager.verify(accessToken.value).fault)
  {
    if accessToken.None? || accessToken.value == "" then
      Forbidden(InvalidTokenError())
    else
      match tokenManager.verify(accessToken.value)
      case Threw(e) => ServerError(e)
      case Returned(Left(_)) => Forbidden(InvalidTokenError())
      case Returned(Right(payload)) => Ok(PayloadBody(payload))
  }

  /** The verifier's own reason for rejecting a token never reaches the
      response: every rejection yields the same response. */
  lemma RejectionHidesReason(tokenManager: TokenManager, token: string)
    requires token != ""
    requires tokenManager.verify(token).Returned? && tokenManager.verify(token).result.Left?
    ensures Handle(tokenManager, Some(token)) == Handle(tokenManager, None)
  {
  }

  /** The payload of a token: empty and null tokens are refused, a signed
      token is accepted with the payload it was signed for, and the same token
      with trash appended is refused. */
  lemma SignedTokenCases(tokenManager: TokenManager, payload: Payload)
    requires RoundTrips(tokenManager, payload) && tokenManager.sign(payload) != ""
    requires tokenManager.verify(tokenManager.sign(payload) + "some trash").Returned?
    requires tokenManager.verify(tokenManager.sign(payload) + "some trash").result.Left?
    ensures Handle(tokenManager, Some("")) == Forbidden(PlainError("Invalid token."))
    ensures Handle(tokenManager, None) == Forbidden(PlainError("Invalid token."))
    ensures Handle(tokenManager, Some(tokenManager.sign(payload))) == Ok(PayloadBody(payload))
    ensures Handle(tokenManager, Some(tokenManager.sign(payload) + "some trash")) == Forbidden(PlainError("Invalid token."))
  {
  }

  /** A token manager whose `verify` throws: the middleware answers with a
      server error carrying that same error. */
  lemma ThrowingVerifierCase()
    ensures var throwing := TokenManager(_ => "a token", _ => Threw(PlainError("An error.")));
      Handle(throwing, Some(throwing.sign(Payload(Some("my id"))))) == ServerError(PlainError("An error."))
  {
  }
}
