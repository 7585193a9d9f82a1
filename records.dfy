/** The plain data records that cross the ports: what the repositories store,
    what a token carries and what a successful sign-in returns. */
module Records {
  import opened Shared

  /** A user as the user repository stores it; `id` is absent until the
      repository assigns one on `add`. */
  datatype UserData = UserData(id: Option<string>, email: string, password: string)

  /** A note as the note repository stores it, and the changed-note request
      of UpdateNote. An empty `title` or `content` stands for a field the
      request leaves out (both are falsy in the source). */
  datatype NoteData = NoteData(id: string, ownerId: string, ownerEmail: string, title: string, content: string)

  /** The claims a token carries: the signed-in user's id. */
  datatype Payload = Payload(id: Option<string>)

  datatype AuthenticationResult = AuthenticationResult(id: Option<string>, accessToken: string)
}
