/** `GlobalExceptionHandler`: each exception kind becomes an HTTP status and
    an error body with a `status` entry and, except for validation failures,
    an `error` entry. */
module GlobalExceptionHandler {
  import opened Wrappers
  import opened Exceptions
  import opened Dto
  import opened Http

  const UNEXPECTED_MESSAGE: string := "An unexpected error occurred"

  /** The field-to-message map built by `forEach(... put ...)` over the
      binding result: a later error for the same field overwrites an earlier one. */
  function ErrorsMap(errs: seq<FieldError>): map<string, string>
    decreases |errs|
  {
    if errs == [] then map[]
    else
      var last := errs[|errs| - 1];
      ErrorsMap(errs[..|errs| - 1])[last.field := last.message]
  }

  /** Whatever order the errors come in, the map has one entry per rejected
      field, holding a message reported for that field. */
  lemma {:induction false} ErrorsMapContents(errs: seq<FieldError>)
    ensures ErrorsMap(errs).Keys == FieldsOf(errs)
    ensures forall f :: f in ErrorsMap(errs) ==> FieldError(f, ErrorsMap(errs)[f]) in errs
    decreases |errs|
  {
    if errs != [] {
      var init, last := errs[..|errs| - 1], errs[|errs| - 1];
      ErrorsMapContents(init);
      assert errs == init + [last];
      FieldsOfConcat(init, [last]);
      assert FieldsOf([last]) == {last.field};
    }
  }

  function Simple(status: int, message: string, statusName: string): Response {
    Response(status, ErrorJson(map["error" := JStr(message), "status" := JStr(statusName)]))
  }

  /** The handler chosen for `ex` and the response it builds. */
  function Handle(ex: Exception): (r: Response)
    ensures r.body.ErrorJson? && "status" in r.body.entries
    ensures !IsSuccessStatus(r.status)
    ensures "error" in r.body.entries <==> !ex.ArgumentNotValid?
    ensures ex.ResourceNotFound? ==> r.status == NOT_FOUND && ErrorField(r.body) == Some(ex.message)
    ensures ex.InvalidCredentials? ==> r.status == UNAUTHORIZED && ErrorField(r.body) == Some(ex.message)
    ensures ex.UserAlreadyExists? ==> r.status == CONFLICT && ErrorField(r.body) == Some(ex.message)
    ensures ex.IllegalArgument? ==> r.status == BAD_REQUEST && ErrorField(r.body) == Some(ex.message)
    ensures ex.ArgumentNotValid? ==> r.status == BAD_REQUEST && ErrorField(r.body).None?
    ensures ex.Unexpected? ==> r.status == INTERNAL_SERVER_ERROR && ErrorField(r.body) == Some(UNEXPECTED_MESSAGE)
  {
    match ex
    case ResourceNotFound(m) => Simple(NOT_FOUND, m, "NOT_FOUND")
    case InvalidCredentials(m) => Simple(UNAUTHORIZED, m, "UNAUTHORIZED")
    case UserAlreadyExists(m) => Simple(CONFLICT, m, "CONFLICT")
    case IllegalArgument(m) => Simple(BAD_REQUEST, m, "BAD_REQUEST")
    case ArgumentNotValid(errs) =>
      Response(BAD_REQUEST, ErrorJson(map["status" := JStr("VALIDATION_ERROR"), "errors" := JObj(ErrorsMap(errs))]))
    case Unexpected(_) => Simple(INTERNAL_SERVER_ERROR, UNEXPECTED_MESSAGE, "INTERNAL_SERVER_ERROR")
  }

  /** A validation failure answers 400 with an `errors` object naming exactly
      the rejected fields, each with one of its messages. */
  lemma ValidationBody(errs: seq<FieldError>)
    ensures var r := Handle(ArgumentNotValid(errs));
      && r.status == BAD_REQUEST
      && "errors" in r.body.entries && r.body.entries["errors"].JObj?
      && r.body.entries["errors"].fields.Keys == FieldsOf(errs)
      && forall f :: f in r.body.entries["errors"].fields ==>
           FieldError(f, r.body.entries["errors"].fields[f]) in errs
  {
    ErrorsMapContents(errs);
  }

  /** The message of an unexpected exception never reaches the client: any
      two of them produce the same response. */
  lemma UnexpectedMessageHidden(m1: string, m2: string)
    ensures Handle(Unexpected(m1)) == Handle(Unexpected(m2))
  {
  }
}
