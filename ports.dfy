/** The capabilities the use-cases and the middleware consume. Their
    implementations are not part of this model: each port is a value holding
    the functions it offers. */
module Ports {
  import opened Shared
  import opened Records
  import opened Errors

  /** `encode` is one-way; `compare(plain, encoded)` says whether `plain`
      encodes to `encoded`. */
  datatype Encoder = Encoder(encode: string -> string, compare: (string, string) -> bool)

  /** `verify` resolves to an Either, or throws. */
  datatype TokenManager = TokenManager(sign: Payload -> string, verify: string -> Outcome<Payload>)

  /** A token signed for `payload` verifies back to exactly that payload. */
  predicate RoundTrips(tokenManager: TokenManager, payload: Payload)
  {
    tokenManager.verify(tokenManager.sign(payload)) == Returned(Right(payload))
  }

  /** The sign-up tests' encoder: it appends "ENCRYPTED". */
  function SuffixEncoder(): Encoder
  {
    Encoder(plain => plain + "ENCRYPTED", (plain, encoded) => encoded == plain + "ENCRYPTED")
  }
}
