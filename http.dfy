/**
  What a handler sees of a request's authentication, and what it sends back.
 */
module Http {
  import opened Wrappers
  import opened Docs

  /** `req.user` as the authentication middleware fills it in: the token's subject, the
      stored username, and the role CLAIM carried by the token (not the stored role). */
  datatype Caller = Caller(id: Id, username: string, role: string)

  /** An access token, issued opaquely for a subject and a role. */
  datatype Token = Token(subject: Id, role: string)

  /** A response: a success status with its body, or an error status with a message. */
  datatype Response<T> = Ok(status: nat, body: T) | Err(status: nat, message: string)

  const ROLE_USER: string := "user"
  const ROLE_CONTRIBUTOR: string := "contributor"

  /** The message of a failed schema validation on `save` / `create` (the text of
      Mongoose's message is not modelled). */
  const VALIDATION_FAILED: string := "validation failed"

  /** An optional text field of a request body as a falsy test or a `= ""` destructuring
      default reads it: absent is the empty string. */
  function OrEmpty(v: Option<string>): string {
    if v.None? then "" else v.value
  }

  /** An optional text field of a request body inside a template literal: absent is the
      text "undefined". */
  function Interpolated(v: Option<string>): string {
    if v.None? then "undefined" else v.value
  }
}
