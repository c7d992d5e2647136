/** The HTTP exchange between the two halves: a status and a JSON body on
    the server side, and how the client's gateway turns a response into a
    settled call (axios rejects every status outside 2xx). */
module Http {
  import opened Wrappers
  import opened Dto

  /** A JSON value as the error bodies use them: a string, or a flat object of strings. */
  datatype Json = JStr(str: string) | JObj(fields: map<string, string>)

  /** A sweet list is keyed by id: the order the database returns rows in is
      not specified by the source. */
  datatype Body =
    | NoBody
    | SweetJson(sweet: SweetResponse)
    | SweetListJson(sweets: map<int, SweetResponse>)
    | ErrorJson(entries: map<string, Json>)

  datatype Response = Response(status: int, body: Body)

  const OK: int := 200
  const CREATED: int := 201
  const NO_CONTENT: int := 204
  const BAD_REQUEST: int := 400
  const UNAUTHORIZED: int := 401
  const NOT_FOUND: int := 404
  const CONFLICT: int := 409
  const INTERNAL_SERVER_ERROR: int := 500

  predicate IsSuccessStatus(status: int) {
    200 <= status < 300
  }

  /** `error.response?.data?.error`: the `error` string of an error body, if any. */
  function ErrorField(b: Body): (r: Option<string>)
    ensures r.Some? <==> b.ErrorJson? && "error" in b.entries && b.entries["error"].JStr?
    ensures r.Some? ==> b.entries["error"] == JStr(r.value)
  {
    if b.ErrorJson? && "error" in b.entries && b.entries["error"].JStr?
    then Some(b.entries["error"].str)
    else None
  }

  /** The message a client store records for a rejected call:
      `error.response?.data?.error || fallback`. An empty message is falsy in
      JavaScript and falls back too. */
  function ErrorMessage(field: Option<string>, fallback: string): (m: string)
    ensures field.Some? && field.value != "" ==> m == field.value
    ensures field.None? || field.value == "" ==> m == fallback
  {
    if field.Some? && field.value != "" then field.value else fallback
  }

  /** How a call that expects one sweet settles on the client: the record on
      a 2xx response carrying one, otherwise a rejection carrying the body's
      `error` field. A 2xx whose body is not a sweet is read here as a
      rejection, although axios would resolve it; no modelled endpoint that
      answers a single sweet gives such a response. */
  function SweetOutcome(r: Response): (o: Result<SweetResponse, Option<string>>)
    ensures o.Success? <==> IsSuccessStatus(r.status) && r.body.SweetJson?
    ensures o.Success? ==> o.value == r.body.sweet
    ensures o.Failure? ==> o.error == ErrorField(r.body)
  {
    if IsSuccessStatus(r.status) && r.body.SweetJson? then Success(r.body.sweet)
    else Failure(ErrorField(r.body))
  }

  /** How a call whose body the client ignores (delete) settles. */
  function UnitOutcome(r: Response): (o: Result<(), Option<string>>)
    ensures o.Success? <==> IsSuccessStatus(r.status)
    ensures o.Failure? ==> o.error == ErrorField(r.body)
  {
    if IsSuccessStatus(r.status) then Success(()) else Failure(ErrorField(r.body))
  }
}
