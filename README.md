# thewisepad-core: note editing and authentication decisions in Dafny

This project models the decision logic of a small clean-architecture note-taking
backend: the UpdateNote use-case and the in-memory note store it runs against,
the SignUp use-case, the sign-in use-case with its HTTP controller, the
authentication middleware that guards protected routes, and the `Note`/`User`
entity factories. Every failure is a value of one `Either` type, never a thrown
fault; a port that may throw is modelled by `Outcome`, whose `Threw` arm carries
the thrown error.

Module layout, leaves first:

- `Shared` (shared.dfy): `Option`, `Either`, and `Decimal`, JavaScript's
  `n.toString()` for the counter-based ids, with its inverse `DigitsValue`.
- `Arrays` (arrays.dfy): `findIndex`, `find`, `filter` and `splice(k, 1)`
  as functions over sequences.
- `Records` (records.dfy): `UserData`, `NoteData`, `Payload`,
  `AuthenticationResult`.
- `Errors` (errors.dfy): the closed error enumeration, `Outcome`, and the
  `MissingParamError` message.
- `Entities` (entities.dfy): the value objects, `User`, `Note`, and their
  factories. The email, password and title predicates are fields of `Rules`;
  `AgreesWithTests` pins them down only on the strings the tests use.
- `Http`, `Ports` (http.dfy, ports.dfy): responses as status code plus body.
  The `Encoder` and `TokenManager` ports are values holding their functions.
- `NoteRepository` (note_repository.dfy): the class `InMemoryNoteRepository`.
  Its state is a sequence of notes and an id counter. It also defines the
  functions that describe its field writes.
- `UserRepository` (user_repository.dfy): the in-memory user store.
- `UpdateNoteUseCase`, `SignUpUseCase` (update_note.dfy, sign_up.dfy): the
  use-cases as classes over the stores. Each method's contract gives the
  result and the new store contents for every path.
- `AuthenticationMiddleware`, `SignInController` (authentication.dfy,
  sign_in.dfy): pure decision functions.

Two places where the intended behaviour and the code differ. The model
follows the code:

- UpdateNote is meant to fail fast when the stored owner no longer validates.
  The code casts the rebuilt user without checking it. Here, a stored and
  valid owner is a precondition of `UpdateNote.Perform`.
- The collision check is meant to look only at the owner's other notes. The
  code compares against every note of the owner, including the one being
  edited. Here, resubmitting a note's current title is refused with
  `ExistingTitleError` (`ResubmittedTitleCollides`).

The password encoder is a one-way encoding and stays abstract (`Encoder`).
Only the tests' fake encoder, which appends "ENCRYPTED" to the password, is
modelled (`SuffixEncoder`).

## Model

| member | source | states |
|---|---|---|
| Shared.Decimal | test/doubles/repositories/in-memory-note-repository.ts:15 | the id string of a counter value is one or more decimal digits; it has a single digit exactly when the value is below 10, and it has no leading zero |
| Shared.DecimalRoundTrip | test/doubles/repositories/in-memory-note-repository.ts:15 | reading the digits of an id back gives the counter value it was made from |
| Shared.DecimalInjective | test/doubles/repositories/in-memory-note-repository.ts:15-16 | two different counter values never give the same id |
| Arrays.FindIndex | test/doubles/repositories/in-memory-note-repository.ts:35 | `findIndex` returns a position whose element matches, and no earlier element matches; it returns none exactly when no element matches |
| Arrays.Find | test/doubles/repositories/in-memory-note-repository.ts:26 | `find` returns nothing exactly when no element matches; otherwise it returns the element at the first matching position |
| Arrays.FindIndexSameMatches | test/doubles/repositories/in-memory-note-repository.ts:35 | `findIndex` depends only on which positions match: equal-length sequences that match at the same positions give the same index |
| Arrays.Filter | test/doubles/repositories/in-memory-note-repository.ts:22 | `filter` keeps every matching element and nothing else |
| Arrays.FilterMultiset | test/doubles/repositories/in-memory-note-repository.ts:22 | `filter` keeps every copy of a matching element and drops every copy of any other element, so the result is exactly the matching part of the store, counted with multiplicity |
| Arrays.FilterAppend | test/doubles/repositories/in-memory-note-repository.ts:22 | filtering a concatenation gives the concatenation of the filtered parts, so the kept elements stay in stored order |
| Arrays.RemoveAt | test/doubles/repositories/in-memory-note-repository.ts:35 | `splice(k, 1)` shortens the store by one; entries before `k` stay in place and entries after `k` move down by one |
| Arrays.RemoveAtMultiset | test/doubles/repositories/in-memory-note-repository.ts:35 | splicing at `k` removes exactly one occurrence of the entry at `k` and keeps every other entry |
| NoteRepository.WithTitle | test/doubles/repositories/in-memory-note-repository.ts:39-46 | a title write changes only the title of the first note with the id; the store's length and every other note stay the same; an absent id changes nothing |
| NoteRepository.WithContent | test/doubles/repositories/in-memory-note-repository.ts:48-55 | a content write changes only the content of the first note with the id; the store's length and every other note stay the same; an absent id changes nothing |
| NoteRepository.WithTitleKeepsIds | test/doubles/repositories/in-memory-note-repository.ts:44 | after a title write, every id is found at the same position as before |
| NoteRepository.WithContentKeepsIds | test/doubles/repositories/in-memory-note-repository.ts:53 | after a content write, every id is found at the same position as before |
| NoteRepository.FieldWritesCommute | src/use-cases/update-note/update-note.ts:31-36 | writing the title and then the content gives the same store as the opposite order |
| NoteRepository.InMemoryNoteRepository.constructor | test/doubles/repositories/in-memory-note-repository.ts:5-12 | the store starts with the given notes and the counter starts at 0 |
| NoteRepository.InMemoryNoteRepository.Add | test/doubles/repositories/in-memory-note-repository.ts:14-19 | the note gets the counter's decimal string as its id; the counter goes up by one; the note is appended at the end and returned |
| NoteRepository.InMemoryNoteRepository.FindAllNotesFrom | test/doubles/repositories/in-memory-note-repository.ts:21-23 | the result holds exactly the stored notes of that owner, in stored order; the store does not change |
| NoteRepository.InMemoryNoteRepository.FindById | test/doubles/repositories/in-memory-note-repository.ts:25-28 | the result is the first stored note with the id, or none when no note has it |
| NoteRepository.InMemoryNoteRepository.Remove | test/doubles/repositories/in-memory-note-repository.ts:30-37 | an absent id gives none and leaves the store unchanged; otherwise exactly the first match is spliced out and returned |
| NoteRepository.InMemoryNoteRepository.UpdateTitle | test/doubles/repositories/in-memory-note-repository.ts:39-46 | returns true exactly when some note has the id; the store becomes the title write of the first match (nothing changes when the id is absent) |
| NoteRepository.InMemoryNoteRepository.UpdateContent | test/doubles/repositories/in-memory-note-repository.ts:48-55 | returns true exactly when some note has the id; the store becomes the content write of the first match (nothing changes when the id is absent) |
| NoteRepository.SuccessiveAdds | test/doubles/repositories/in-memory-note-repository.ts:5-19 | three adds to a fresh store get ids "0", "1" and "2" whatever notes it started with, and are appended in order |
| UserRepository.UserWithEmail | tests/use-cases/sign-up/sign-up.spec.ts:26 | `findByEmail` returns none exactly when no stored user has the email; otherwise it returns a stored user with that email |
| UserRepository.InMemoryUserRepository.constructor | tests/use-cases/sign-up/sign-up.spec.ts:15-17 | the user store starts with the given users |
| UserRepository.InMemoryUserRepository.FindAll | tests/use-cases/sign-up/sign-up.spec.ts:25 | returns every stored user |
| UserRepository.InMemoryUserRepository.FindByEmail | tests/use-cases/sign-up/sign-up.spec.ts:26 | the lookup is by email over the stored users and leaves them unchanged |
| UserRepository.InMemoryUserRepository.Add | tests/use-cases/sign-up/sign-up.spec.ts:24-25 | the added user gets a defined id and is appended, so the store grows by one |
| Entities.CreateUser | tests/entities/note.spec.ts:12 | `User.create` succeeds exactly when both the email and the password are valid; an invalid email is reported even when the password is also invalid; on success both values are kept |
| Entities.CreateNote | tests/entities/note.spec.ts:7-26 | `Note.create` fails exactly when the title is invalid, and the error carries the offending title; on success the owner, title and content are the inputs |
| Entities.NoteCreationCases | tests/entities/note.spec.ts:7-26 | the test's note keeps the title "my note", the owner's email "my@mail.com" and its content; the empty title gives exactly `InvalidTitleError('')` |
| Entities.UserCreationCases | tests/use-cases/sign-up/sign-up.spec.ts:35-47 | "invalid_email" fails with `InvalidEmailError` and "1abc" with `InvalidPasswordError`; when both are invalid, the email error wins |
| Entities.CreateEmail | tests/use-cases/sign-up/sign-up.spec.ts:35-40 | an email value object is made exactly when the string is a valid email, and holds that string; otherwise the error is `InvalidEmailError` carrying the string |
| Entities.CreatePassword | tests/use-cases/sign-up/sign-up.spec.ts:42-47 | a password value object is made exactly when the string is a valid password, and holds that string; otherwise the error is `InvalidPasswordError` carrying the string |
| Entities.CreateTitle | tests/entities/note.spec.ts:7-26 | a title value object is made exactly when the string is a valid title, and holds that string; otherwise the error is `InvalidTitleError` carrying the string |
| UpdateNoteUseCase.TitleTaken | src/use-cases/update-note/update-note.ts:25-27 | the collision check fires exactly when some stored note of that owner already has the title |
| UpdateNoteUseCase.OtherOwnersIgnored | src/use-cases/update-note/update-note.ts:25-26 | a note of another owner, wherever it is stored, never changes the outcome of the collision check |
| UpdateNoteUseCase.ResubmittedTitleCollides | src/use-cases/update-note/update-note.ts:25-28 | the note being edited counts in the check, so resubmitting its current title collides |
| UpdateNoteUseCase.ApplyChanges | src/use-cases/update-note/update-note.ts:31-36 | a successful update touches only the first note with the changed id; that note takes each non-empty field given and keeps each empty one; every other note, and the whole store when the id is absent, stay unchanged |
| UpdateNoteUseCase.ValidTitleIsWritten | src/use-cases/update-note/update-note.ts:19-33 | a title that passes validation is non-empty under the tested rules, so a successful update always writes it |
| UpdateNoteUseCase.UpdateNote.constructor | src/use-cases/update-note/update-note.ts:11-14 | the use-case keeps the note store and the user store it is given |
| UpdateNoteUseCase.UpdateNote.Perform | src/use-cases/update-note/update-note.ts:16-39 | an invalid title returns that `InvalidTitleError` and writes nothing; a taken title returns `ExistingTitleError` and writes nothing; otherwise the title is written if non-empty, then the content if non-empty, and the input comes back unchanged |
| UpdateNoteUseCase.RenameToSiblingTitle | src/use-cases/update-note/update-note.ts:25-29 | giving one of an owner's two notes the other's title is refused with `ExistingTitleError`, and the store keeps both notes unchanged |
| SignUpUseCase.SignUp.constructor | tests/use-cases/sign-up/sign-up.spec.ts:21 | the use-case keeps the store and the encoder it is given |
| SignUpUseCase.SignUp.Perform | tests/use-cases/sign-up/sign-up.spec.ts:20-47 | a validation failure is returned as it is and stores nothing; an email already on record gives `ExistingUserError` carrying the request and stores nothing; otherwise one user is appended with the encoded password and a fresh id, the id counter goes up by one, and that record is returned |
| SignUpUseCase.SignUpSuite | tests/use-cases/sign-up/sign-up.spec.ts:9-47 | on a store that starts empty, the valid request is stored once as "1validpasswordENCRYPTED" and the result carries its email and an id; on a separate store that already holds the request, signing it up gives `ExistingUserError` carrying the request; an invalid email gives `InvalidEmailError`; an invalid password gives `InvalidPasswordError`, although by then its email is on record in the first store |
| SignUpUseCase.SignUpTwice | tests/use-cases/sign-up/sign-up.spec.ts:29-33 | signing up the same request twice on one store: the second attempt gives `ExistingUserError` carrying the request, and the store still holds exactly the one user the first attempt added |
| AuthenticationMiddleware.Handle | test/presentation/middleware/authentication.spec.ts:8-57 | a null or empty token is forbidden with "Invalid token."; a non-empty token that verifies gives 200 with the verified payload; a rejected one gives 403 with "Invalid token."; a throwing verifier gives 500 with the thrown error; no other status occurs |
| AuthenticationMiddleware.RejectionHidesReason | test/presentation/middleware/authentication.spec.ts:21-29 | whatever error the verifier rejects a token with, the response is the same as for a missing token |
| AuthenticationMiddleware.SignedTokenCases | test/presentation/middleware/authentication.spec.ts:9-38 | empty and null tokens are forbidden; a signed token gives ok with exactly the signed payload; that token with "some trash" appended is forbidden |
| AuthenticationMiddleware.ThrowingVerifierCase | test/presentation/middleware/authentication.spec.ts:40-56 | the token manager whose verify throws `Error('An error.')` yields `serverError` with that same error |
| SignInController.Authenticate | test/presentation/controllers/sign-in.spec.ts:15-109 | sign-in fails only with `UserNotFoundError` or `WrongPasswordError`; the first happens exactly when no user has the email, and the second exactly when the password does not match the stored one; on success the result carries the stored user's id and a token signed for it |
| SignInController.IssuedTokenVerifies | test/presentation/controllers/sign-in.spec.ts:26-30 | the access token of a successful sign-in verifies to the signed-in user's id, when the token manager round-trips that payload |
| SignInController.MissingParams | test/presentation/controllers/sign-in.spec.ts:33-77 | the missing names are exactly the required fields absent from the body; the list is empty exactly when every required field is present; for the controller's two fields it is "email" (when absent) followed by "password" (when absent) |
| SignInController.Handle | test/presentation/controllers/sign-in.spec.ts:14-129 | missing fields give 400 with one `MissingParamError` naming them all; with both fields present, a throw gives 500 with the thrown error, a result gives 200 with that result, `WrongPasswordError` gives 403 with that error as body, and any other error gives 400 with that error; 403 happens exactly for `WrongPasswordError`; no status other than 200, 400, 403 and 500 occurs |
| SignInController.MissingParamCases | test/presentation/controllers/sign-in.spec.ts:33-77 | a missing email gives ["email"], a missing password ["password"], and both missing ["email", "password"] |
| SignInController.MissingParamMessages | test/presentation/controllers/sign-in.spec.ts:46-76 | the messages read "Missing parameter: email.", "Missing parameter: password." and "Missing parameter: email password." |
| Errors.JoinWords | test/presentation/controllers/sign-in.spec.ts:46-76 | the joined text opens with the first name; no names give the empty text and a single name is the whole text; with `JoinWordsAppend` this fixes the text by induction |
| Errors.JoinWordsAppend | test/presentation/controllers/sign-in.spec.ts:76 | joining one more name appends a single space and that name |
| Errors.MissingParamMessage | test/presentation/controllers/sign-in.spec.ts:46-76 | the message starts with "Missing parameter: ", ends with a full stop, and between them holds the missing names joined by spaces |
| SignInController.ControllerCases | test/presentation/controllers/sign-in.spec.ts:15-109 | with one stored user: valid credentials give 200 with that user's id; a wrong password gives 403 with `WrongPasswordError`; an unregistered email gives 400 with `UserNotFoundError` |
| SignInController.ThrowingUseCaseCase | test/presentation/controllers/sign-in.spec.ts:111-129 | a use-case that throws `Error()` gives 500 with that error as body |

## Left out

- Promises and `await` are modelled as plain sequential calls.
- JavaScript exceptions are modelled as the `Threw` outcome of a port. They are
  not propagated.
- Shared object identity is not modelled. The note store keeps the caller's
  array, `add` stamps the id on the caller's object, and `findById` hands out
  live objects that `updateTitle` changes. Here the store is one sequence field
  that the methods reassign.
- Concurrent read-then-write races between requests are not modelled. Every
  call runs to completion before the next one starts.
- The validators for emails, passwords and titles are not modelled. The same
  holds for the internals of the fake token manager, the fake encoders and the
  user builder. They appear as function-valued fields of `Rules`, `Encoder` and
  `TokenManager`. Only the test cases constrain them (`AgreesWithTests`,
  `SuffixEncoder`, the requires of the case lemmas).
- The implementation files of the authentication middleware, the sign-in
  controller, the sign-in and sign-up use-cases, `User` and `Note` are not part
  of this model. Their behaviour is taken from the test files cited above.
- The implementation of the in-memory user store is not part of this model. It
  is taken to assign ids the way the note store does.
- A sign-in request field counts as missing when its key is absent from the
  body. An empty value is not treated as missing.
- SignInController.Handle: a use-case error other than `WrongPasswordError`
  maps to 400. The tests show this only for `UserNotFoundError`.
- UpdateNoteUseCase.UpdateNote.Perform: the owner's stored record must exist
  and pass `User.create`. The source dereferences and casts it unchecked, so a
  missing owner there would throw; that path is not modelled. A stored owner
  that is present but fails `User.create` would, in the source, proceed exactly
  like a valid one: `Note.create` does not re-check the owner and the rest of
  `perform` never uses it. The precondition excludes that case too.
- An absent title or content in a changed note is represented by the empty
  string. The source treats both as falsy, so both skip the write.
- Entities.CreateTitle: title normalisation is not modelled. A title value is
  the raw string, so a blank title is not trimmed to the empty string before
  validation, and the collision check compares raw titles.
- A note's id is a plain string. The source's optional id is not modelled.
- The dependency-injection factory for the middleware is not modelled. It only
  wires the middleware to a fake token manager.
- Token expiry is not modelled. An expired token would be one more way for
  `verify` to return a left.
- HTTP response objects and `instanceof` checks become a status code plus a
  tagged error value.
