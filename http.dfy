/** HTTP responses as a status code plus a body, and the helpers that build
    them. */
module Http {
  import opened Records
  import opened Errors

  datatype Body =
    | ErrorBody(error: Error)
    | PayloadBody(payload: Payload)
    | AuthBody(auth: AuthenticationResult)

  datatype HttpResponse = HttpResponse(statusCode: nat, body: Body)

  function Ok(body: Body): HttpResponse { HttpResponse(200, body) }

  function BadRequest(e: Error): HttpResponse { HttpResponse(400, ErrorBody(e)) }

  function Forbidden(e: Error): HttpResponse { HttpResponse(403, ErrorBody(e)) }

  function ServerError(e: Error): HttpResponse { HttpResponse(500, ErrorBody(e)) }
}
