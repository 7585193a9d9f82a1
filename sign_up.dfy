/** The SignUp use-case: validate the request, refuse an email already on
    record, encode the password and store the user. */
module SignUpUseCase {
  import opened Shared
  import opened Records
  import opened Errors
  import opened Entities
  import opened Ports
  import opened UserRepository

  class SignUp {
    const userRepository: InMemoryUserRepository
    const encoder: Encoder
    const rules: Rules

    constructor (userRepository: InMemoryUserRepository, encoder: Encoder, rules: Rules)
      ensures this.userRepository == userRepository && this.encoder == encoder && this.rules == rules
    {
      this.userRepository := userRepository;
      this.encoder := encoder;
      this.rules := rules;
    }

    /** Validation comes first, then the duplicate check; only a request that
        passes both reaches the store, and then exactly once. */
    method Perform(request: UserData) returns (r: Either<Error, UserData>)
      modifies userRepository
      ensures CreateUser(rules, request.email, request.password).Left? ==>
        && r == Left(CreateUser(rules, request.email, request.password).left)
        && userRepository.users == old(userRepository.users)
        && userRepository.idCounter == old(userRepository.idCounter)
      ensures (CreateUser(rules, request.email, request.password).Right? &&
               UserWithEmail(old(userRepository.users), request.email).Some?) ==>
        && r == Left(ExistingUserError(request))
        && userRepository.users == old(userRepository.users)
        && userRepository.idCounter == old(userRepository.idCounter)
      ensures (CreateUser(rules, request.email, request.password).Right? &&
               UserWithEmail(old(userRepository.users), request.email).None?) ==>
        && r == Right(UserData(Some(Decimal(old(userRepository.idCounter))), request.email, encoder.encode(request.password)))
        && userRepository.users == old(userRepository.users) + [r.right]
        && userRepository.idCounter == old(userRepository.idCounter) + 1
    {
      var userOrError := CreateUser(rules, request.email, request.password);
      if userOrError.Left? {
        return Left(userOrError.left);
      }
      var user := userOrError.right;
      var existing := userRepository.FindByEmail(user.email.value);
      if existing.Some? {
        return Left(ExistingUserError(request));
      }
      var encodedPassword := encoder.encode(user.password.value);
      var added := userRepository.Add(UserData(None, user.email.value, encodedPassword));
      return Right(added);
    }
  }

  /** The sign-up test suite in its order. The valid request and the two
      invalid ones go to one shared store that starts empty: the valid request
      is stored once, with its password encoded, and the invalid email and the
      invalid password are refused by validation, the latter even though its
      email is by then on record. The existing-user case runs on a separate
      store that already holds the request. */
  method SignUpSuite(rules: Rules)
    returns (signedUp: Either<Error, UserData>, stored: seq<UserData>, existing: Either<Error, UserData>,
             badEmail: Either<Error, UserData>, badPassword: Either<Error, UserData>)
    requires AgreesWithTests(rules)
    ensures signedUp.Right? && signedUp.right.email == "any@mail.com" && signedUp.right.id.Some?
    ensures |stored| == 1 && stored[0].email == "any@mail.com" && stored[0].password == "1validpasswordENCRYPTED"
    ensures existing == Left(ExistingUserError(UserData(None, "any@mail.com", "1validpassword")))
    ensures badEmail.Left? && badEmail.left.InvalidEmailError?
    ensures badPassword.Left? && badPassword.left.InvalidPasswordError?
  {
    var request := UserData(None, "any@mail.com", "1validpassword");
    var emptyRepository := new InMemoryUserRepository([]);
    var singleUserRepository := new InMemoryUserRepository([request]);
    var encoder := SuffixEncoder();

    var sut := new SignUp(emptyRepository, encoder, rules);
    signedUp := sut.Perform(request);
    stored := emptyRepository.users;

    var onSingleUser := new SignUp(singleUserRepository, encoder, rules);
    existing := onSingleUser.Perform(request);

    sut := new SignUp(emptyRepository, encoder, rules);
    badEmail := sut.Perform(UserData(None, "invalid_email", "1validpassword"));
    sut := new SignUp(emptyRepository, encoder, rules);
    badPassword := sut.Perform(UserData(None, "any@mail.com", "1abc"));
  }

  /** Signing up twice with the same email: the second attempt is refused
      with ExistingUserError and the store still holds one user. */
  method SignUpTwice(rules: Rules)
    returns (first: Either<Error, UserData>, second: Either<Error, UserData>, stored: seq<UserData>)
    requires AgreesWithTests(rules)
    ensures first.Right? && first.right.email == "any@mail.com"
    ensures second == Left(ExistingUserError(UserData(None, "any@mail.com", "1validpassword")))
    ensures |stored| == 1 && stored[0] == first.right
  {
    var request := UserData(None, "any@mail.com", "1validpassword");
    var repository := new InMemoryUserRepository([]);
    var sut := new SignUp(repository, SuffixEncoder(), rules);
    first := sut.Perform(request);
    second := sut.Perform(request);
    stored := repository.users;
  }
}
