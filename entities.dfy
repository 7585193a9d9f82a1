/** The entities and their self-validating value objects. The email, password
    and title predicates are not part of this model: they are the fields of
    `Rules`, and `AgreesWithTests` pins them down only on the concrete strings
    the test suite uses. */
module Entities {
  import opened Shared
  import opened Errors

  datatype Rules = Rules(isEmail: string -> bool, isPassword: string -> bool, isTitle: string -> bool)

  /** What the test suite shows of the validators. */
  predicate AgreesWithTests(rules: Rules)
  {
    && rules.isEmail("my@mail.com")
    && rules.isEmail("any@mail.com")
    && !rules.isEmail("invalid_email")
    && rules.isPassword("1validpassword")
    && !rules.isPassword("1abc")
    && rules.isTitle("my note")
    && !rules.isTitle("")
  }

  datatype Email = Email(value: string)
  datatype Password = Password(value: string)
  datatype Title = Title(value: string)

  datatype User = User(email: Email, password: Password)

  /** A note holds its owner, its title and its content; its id lives in the
      repository's NoteData. */
  datatype Note = Note(owner: User, title: Title, content: string)

  /** `Email.create`: a valid string is wrapped as it is; an invalid one is
      refused with an error that carries it. */
  function CreateEmail(rules: Rules, raw: string): (r: Either<Error, Email>)
    ensures r.Right? <==> rules.isEmail(raw)
    ensures r.Left? ==> r.left == InvalidEmailError(raw)
    ensures r.Right? ==> r.right.value == raw
  {
    if rules.isEmail(raw) then Right(Email(raw)) else Left(InvalidEmailError(raw))
  }

  /** `Password.create`, in the same way. */
  function CreatePassword(rules: Rules, raw: string): (r: Either<Error, Password>)
    ensures r.Right? <==> rules.isPassword(raw)
    ensures r.Left? ==> r.left == InvalidPasswordError(raw)
    ensures r.Right? ==> r.right.value == raw
  {
    if rules.isPassword(raw) then Right(Password(raw)) else Left(InvalidPasswordError(raw))
  }

  /** `Title.create`, in the same way. */
  function CreateTitle(rules: Rules, raw: string): (r: Either<Error, Title>)
    ensures r.Right? <==> rules.isTitle(raw)
    ensures r.Left? ==> r.left == InvalidTitleError(raw)
    ensures r.Right? ==> r.right.value == raw
  {
    if rules.isTitle(raw) then Right(Title(raw)) else Left(InvalidTitleError(raw))
  }

  /** `User.create`: the email is checked first, and its failure wins. */
  function CreateUser(rules: Rules, email: string, password: string): (r: Either<Error, User>)
    ensures r.Right? <==> rules.isEmail(email) && rules.isPassword(password)
    ensures !rules.isEmail(email) ==> r == Left(InvalidEmailError(email))
    ensures rules.isEmail(email) && !rules.isPassword(password) ==> r == Left(InvalidPasswordError(password))
    ensures r.Right? ==> r.right.email.value == email && r.right.password.value == password
  {
    match CreateEmail(rules, email)
    case Left(e) => Left(e)
    case Right(validEmail) =>
      match CreatePassword(rules, password)
      case Left(e) => Left(e)
      case Right(validPassword) => Right(User(validEmail, validPassword))
  }

  /** `Note.create`: only the title is validated; the owner is taken as it is. */
  function CreateNote(rules: Rules, owner: User, title: string, content: string): (r: Either<Error, Note>)
    ensures r.Left? <==> !rules.isTitle(title)
    ensures r.Left? ==> r.left == InvalidTitleError(title)
    ensures r.Right? ==> r.right.owner == owner && r.right.title.value == title && r.right.content == content
  {
    match CreateTitle(rules, title)
    case Left(e) => Left(e)
    case Right(validTitle) => Right(Note(owner, validTitle, content))
  }

  /** The note entity's two test cases: a valid title, owner and content come
      back unchanged, and an empty title is rejected carrying ''. */
  lemma NoteCreationCases(rules: Rules)
    requires AgreesWithTests(rules)
    ensures CreateUser(rules, "my@mail.com", "1validpassword").Right?
    ensures var owner := CreateUser(rules, "my@mail.com", "1validpassword").right;
      && var note := CreateNote(rules, owner, "my note", "content");
      && note.Right?
      && note.right.title.value == "my note"
      && note.right.owner.email.value == "my@mail.com"
      && note.right.content == "content"
    ensures forall owner: User :: CreateNote(rules, owner, "", "content") == Left(InvalidTitleError(""))
  {
  }

  /** The sign-up test's invalid inputs: "invalid_email" fails as an email and
      "1abc" as a password, each with its own error kind. */
  lemma UserCreationCases(rules: Rules)
    requires AgreesWithTests(rules)
    ensures CreateUser(rules, "invalid_email", "1validpassword") == Left(InvalidEmailError("invalid_email"))
    ensures CreateUser(rules, "any@mail.com", "1abc") == Left(InvalidPasswordError("1abc"))
    ensures CreateUser(rules, "invalid_email", "1abc") == Left(InvalidEmailError("invalid_email"))
  {
  }
}
