/** The exceptions the backend throws, as one datatype. Each constructor is
    one exception class the global handler distinguishes. */
module Exceptions {

  /** One entry of a Bean Validation binding result: the rejected field and
      the constraint's message. */
  datatype FieldError = FieldError(field: string, message: string)

  datatype Exception =
    | ResourceNotFound(message: string)
    | InvalidCredentials(message: string)
    | UserAlreadyExists(message: string)
    | IllegalArgument(message: string)
      /** `MethodArgumentNotValidException`: a `@Valid` request body failed. */
    | ArgumentNotValid(fieldErrors: seq<FieldError>)
      /** Any other exception; its message never reaches the client. */
    | Unexpected(message: string)
}
