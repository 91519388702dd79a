/** What the handlers share: the response `buildResponse` produces, the
    outcome of a repository call, and the record of which repository calls a
    handler made. The library that serialises responses and parses request
    bodies is not part of this model: `buildResponse` pairs a status with a
    body, and `parseInput` is a parameter of the create handler. */
module ApiGateway {
  import opened Wrappers
  import opened JsValues

  const InternalServerError := "Internal server error"

  datatype Response = Response(statusCode: int, body: JsValue)

  /** `buildResponse(statusCode, body)`, before serialisation and headers. */
  function BuildResponse(statusCode: int, body: JsValue): Response {
    Response(statusCode, body)
  }

  /** The body `{ error: message }`. */
  function ErrorBody(message: string): JsValue {
    Obj([("error", Str(message))])
  }

  /** How an awaited repository call settled: it resolved with a value, it
      resolved with nothing (`null` or a missing item), or it rejected. */
  datatype RepoResult<+T> = Ok(value: T) | Absent | Failure

  /** A handler run: the response, and the arguments of the repository calls
      it made, in order. */
  datatype Run<+C> = Run(response: Response, calls: seq<C>)

  /** A parameter read through optional chaining, `params?.[name]`: `None`
      when the parameter map is `null` or lacks the name. */
  function Param(params: Option<map<string, string>>, name: string): Option<string> {
    if params.Some? && name in params.value then Some(params.value[name]) else None
  }

  /** Truthiness of a string-or-undefined parameter: present and non-empty. */
  predicate Given(p: Option<string>) {
    p.Some? && p.value != ""
  }
}
