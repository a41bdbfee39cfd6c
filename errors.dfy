/**
 * The errors that the services raise and catch: the exceptions of the NestJS
 * HTTP layer, zod's validation error, and every other error (one from the
 * database driver or a library) as `ForeignError`.
 */
module Errors {
  import opened Wrappers

  /** One problem zod found in an input: the key of the field and the custom
      message the schema attaches to the failed check (None where zod uses its
      built-in message, whose wording is not modelled). */
  datatype Issue = Issue(path: string, message: Option<string>)

  datatype Exception =
    | ZodError(issues: seq<Issue>)
    | BadRequest(message: Message)
    | Unauthorized(message: Message)
    | NotFound(message: Message)
    | InternalServerError(message: Message)
    | ForeignError(detail: string)
  {
    /** An HttpException: one that the HTTP layer turns into a status code of its own. */
    predicate IsHttp() {
      BadRequest? || Unauthorized? || NotFound? || InternalServerError?
    }
  }

  /** What an exception was constructed with: a literal text, the message of a
      ZodError (its issues, serialized by zod), or another error object. */
  datatype Message =
    | Text(text: string)
    | IssueList(issues: seq<Issue>)
    | Wrapped(cause: Exception)
}
