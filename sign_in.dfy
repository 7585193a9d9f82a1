/** Sign-in: the use-case that checks credentials and issues a token, and the
    controller that checks the request for missing fields and maps the
    use-case's outcome to a status code. */
module SignInController {
  import opened Shared
  import opened Arrays
  import opened Records
  import opened Errors
  import opened Ports
  import opened Http
  import opened UserRepository

  /** Sign-in: find the user by email, compare the password with the stored
      encoded one, and on a match sign a token for the user's id. */
  function Authenticate(users: seq<UserData>, encoder: Encoder, tokenManager: TokenManager, email: string, password: string)
    : (r: Either<Error, AuthenticationResult>)
    ensures r.Left? ==> r.left == UserNotFoundError || r.left == WrongPasswordError
    ensures r == Left(UserNotFoundError) <==> forall j | 0 <= j < |users| :: users[j].email != email
    ensures r.Right? || r == Left(WrongPasswordError) ==>
      UserWithEmail(users, email).Some? && var stored := UserWithEmail(users, email).value;
      (r.Right? <==> encoder.compare(password, stored.password))
    ensures r.Right? ==>
      var stored := UserWithEmail(users, email).value;
      r.right == AuthenticationResult(stored.id, tokenManager.sign(Payload(stored.id)))
  {
    match UserWithEmail(users, email)
    case None => Left(UserNotFoundError)
    case Some(stored) =>
      if !encoder.compare(password, stored.password) then Left(WrongPasswordError)
      else Right(AuthenticationResult(stored.id, tokenManager.sign(Payload(stored.id))))
  }

  /** A token issued by a successful sign-in verifies back to the signed-in
      user's id, when the token manager round-trips that payload. */
  lemma IssuedTokenVerifies(users: seq<UserData>, encoder: Encoder, tokenManager: TokenManager, email: string, password: string)
    requires Authenticate(users, encoder, tokenManager, email, password).Right?
    requires RoundTrips(tokenManager, Payload(Authenticate(users, encoder, tokenManager, email, password).right.id))
    ensures var auth := Authenticate(users, encoder, tokenManager, email, password).right;
      tokenManager.verify(auth.accessToken) == Returned(Right(Payload(auth.id)))
  {
  }

  /** The use-case as the controller sees it: it may also throw. */
  function SignInUseCase(users: seq<UserData>, encoder: Encoder, tokenManager: TokenManager)
    : (string, string) -> Outcome<AuthenticationResult>
  {
    (email, password) => Returned(Authenticate(users, encoder, tokenManager, email, password))
  }

  const RequiredParams: seq<string> := ["email", "password"]

  function AbsentFrom(body: map<string, string>): string -> bool
  {
    (name: string) => name !in body
  }

  /** The required field names the request body lacks, in declared order. */
  function MissingParams(body: map<string, string>, required: seq<string>): (missing: seq<string>)
    ensures forall j | 0 <= j < |missing| :: missing[j] in required && missing[j] !in body
    ensures forall j | 0 <= j < |required| :: required[j] !in body ==> required[j] in missing
    ensures |missing| == 0 <==> forall j | 0 <= j < |required| :: required[j] in body
    ensures required == RequiredParams ==>
      missing == (if "email" in body then [] else ["email"]) + (if "password" in body then [] else ["password"])
  {
    FilterAllOrNone(required, AbsentFrom(body));
    Filter(required, AbsentFrom(body))
  }

  /** `SignInController.handle`: a missing field is a bad request naming every
      missing field; otherwise the use-case decides, a wrong password being
      forbidden, any other refusal a bad request, and a throw a server error. */
  function Handle(body: map<string, string>, perform: (string, string) -> Outcome<AuthenticationResult>): (r: HttpResponse)
    ensures |MissingParams(body, RequiredParams)| > 0 ==> r == BadRequest(MissingParamError(MissingParams(body, RequiredParams)))
    ensures r.statusCode == 200 ==>
      "email" in body && "password" in body &&
      perform(body["email"], body["password"]).Returned? && perform(body["email"], body["password"]).result.Right? &&
      r.body == AuthBody(perform(body["email"], body["password"]).result.right)
    ensures r.statusCode == 403 <==>
      "email" in body && "password" in body &&
      perform(body["email"], body["password"]) == Returned(Left(WrongPasswordError))
    ensures r.statusCode == 500 ==> "email" in body && "password" in body && perform(body["email"], body["password"]).Threw?
    ensures r.statusCode in {200, 400, 403, 500}
    ensures "email" in body && "password" in body ==>
      var outcome := perform(body["email"], body["password"]);
      && (outcome.Threw? ==> r == ServerError(outcome.fault))
      && (outcome == Returned(Left(WrongPasswordError)) ==> r == Forbidden(WrongPasswordError))
      && (outcome.Returned? && outcome.result.Right? ==> r == Ok(AuthBody(outcome.result.right)))
      && (outcome.Returned? && outcome.result.Left? && outcome.result.left != WrongPasswordError ==>
            r == BadRequest(outcome.result.left))
  {
    var missing := MissingParams(body, RequiredParams);
    if |missing| > 0 then
      BadRequest(MissingParamError(missing))
    else
      assert RequiredParams[0] == "email" && RequiredParams[1] == "password";
      match perform(body["email"], body["password"])
      case Threw(e) => ServerError(e)
      case Returned(Left(WrongPasswordError)) => Forbidden(WrongPasswordError)
      case Returned(Left(e)) => BadRequest(e)
      case Returned(Right(auth)) => Ok(AuthBody(auth))
  }

  /** The three missing-field requests: the missing names come out email
      first. */
  lemma MissingParamCases(email: string, password: string)
    ensures MissingParams(map["password" := password], RequiredParams) == ["email"]
    ensures MissingParams(map["email" := email], RequiredParams) == ["password"]
    ensures MissingParams(map[], RequiredParams) == ["email", "password"]
  {
  }

  /** Their messages: one name, or both joined by a space. */
  lemma MissingParamMessages()
    ensures MissingParamMessage(["email"]) == "Missing parameter: email."
    ensures MissingParamMessage(["password"]) == "Missing parameter: password."
    ensures MissingParamMessage(["email", "password"]) == "Missing parameter: email password."
  {
    assert ["email", "password"][1..] == ["password"];
  }

  /** The controller test cases against a repository holding one user whose
      stored password is the encoding of `plain`. */
  lemma ControllerCases(stored: UserData, plain: string, otherEmail: string, encoder: Encoder, tokenManager: TokenManager)
    requires stored.password == encoder.encode(plain)
    requires encoder.compare(plain, encoder.encode(plain))
    requires !encoder.compare("incorrect password", encoder.encode(plain))
    requires otherEmail != stored.email
    ensures var r := Handle(map["email" := stored.email, "password" := plain], SignInUseCase([stored], encoder, tokenManager));
      r.statusCode == 200 && r.body.AuthBody? && r.body.auth.id == stored.id
    ensures Handle(map["email" := stored.email, "password" := "incorrect password"], SignInUseCase([stored], encoder, tokenManager))
         == Forbidden(WrongPasswordError)
    ensures Handle(map["email" := otherEmail, "password" := otherEmail], SignInUseCase([stored], encoder, tokenManager))
         == BadRequest(UserNotFoundError)
  {
  }

  /** A use-case that throws turns into a server error carrying that error. */
  lemma ThrowingUseCaseCase(email: string, password: string)
    ensures Handle(map["email" := email, "password" := password], (_, _) => Threw(PlainError("")))
         == ServerError(PlainError(""))
  {
  }
}
