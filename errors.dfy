/** Every error the core returns as a value, as one closed enumeration, and
    the outcome of awaiting a port that may throw. */
module Errors {
  import opened Shared
  import opened Records

  datatype Error =
    | InvalidEmailError(email: string)
    | InvalidPasswordError(password: string)
    | InvalidTitleError(title: string)
    | ExistingUserError(request: UserData)
    | ExistingTitleError
    | UserNotFoundError
    | WrongPasswordError
      /** its message is `MissingParamMessage(params)` */
    | MissingParamError(params: seq<string>)
      /** a plain `new Error(message)` */
    | PlainError(message: string)

  /** What an awaited port call produces: the Either it resolved to, or the
      fault it threw. */
  datatype Outcome<+T> = Returned(result: Either<Error, T>) | Threw(fault: Error)

  /** The words of a list joined with single spaces: the first word opens
      the result, and a single word is the whole result. With
      `JoinWordsAppend` this fixes the joined text by induction. */
  function JoinWords(words: seq<string>): (r: string)
    ensures |words| == 0 ==> r == ""
    ensures |words| == 1 ==> r == words[0]
    ensures |words| > 0 ==> words[0] <= r
  {
    if |words| == 0 then ""
    else if |words| == 1 then words[0]
    else words[0] + " " + JoinWords(words[1..])
  }

  /** Joining one more word appends a space and that word. */
  lemma {:induction false} JoinWordsAppend(words: seq<string>, w: string)
    requires |words| > 0
    ensures JoinWords(words + [w]) == JoinWords(words) + " " + w
  {
    var longer := words + [w];
    assert longer[0] == words[0];
    if |words| == 1 {
      assert longer[1..] == [w];
    } else {
      assert longer[1..] == words[1..] + [w];
      JoinWordsAppend(words[1..], w);
    }
  }

  const MissingParamPrefix: string := "Missing parameter: "

  /** The message of a MissingParamError listing `params`: the fixed prefix,
      the names joined by spaces, and a closing full stop. */
  function MissingParamMessage(params: seq<string>): (m: string)
    ensures MissingParamPrefix <= m && m[|m| - 1] == '.'
    ensures m[|MissingParamPrefix|..|m| - 1] == JoinWords(params)
  {
    MissingParamPrefix + JoinWords(params) + "."
  }
}
