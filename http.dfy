/**
 * The API-gateway side of every handler: the request fields a handler reads,
 * the response it returns, and the method dispatch the CRUD handlers share.
 */
module Http {
  import opened Options
  import opened JsonValues

  /** The request body after `JSON.parse`, or the message `JSON.parse` throws. */
  datatype Body = Parsed(value: Json) | Unparsable(message: string)

  /** The parts of a gateway event a handler reads: the method, the `uuid` path parameter, the body. */
  datatype Request = Request(httpMethod: string, uuid: Option<string>, body: Body)

  /** `pathParameters.uuid` is present and not empty, the test `!event.pathParameters || !event.pathParameters.uuid` negates. */
  predicate HasUuid(req: Request) {
    req.uuid.Some? && req.uuid.value != ""
  }

  /**
   * A response: status, the JSON body when there is one (`JSON.stringify(undefined)`
   * gives none), and whether it carries the `Access-Control-Allow-Origin: *` header.
   */
  datatype Response = Response(statusCode: int, body: Option<Json>, cors: bool)

  /** What a handler invocation ends in: a response, or an error object returned or thrown in place of one. */
  datatype Outcome = Reply(response: Response) | Errored(message: string)

  const OK := 200
  const CREATED := 201
  const BAD_REQUEST := 400
  const NOT_FOUND := 404
  const METHOD_NOT_ALLOWED := 405
  const INTERNAL_SERVER_ERROR := 500

  const MISSING_UUID := "Missing UUID in URL path"

  /** The message of the `TypeError` a `catch` block throws when it calls `console.err`, which does not exist. */
  const CONSOLE_ERR_MISSING := "console.err is not a function"

  /** A response with the error body `{ error: message }`. */
  function ErrorReply(status: int, message: string, cors: bool): Response {
    Response(status, Some(ErrorBody(message)), cors)
  }

  /** Where the dispatcher sends a request. */
  datatype Route =
    | List
    | Create(body: Body)
    | Update(uuid: string, body: Body)
    | Remove(uuid: string)
    | Refuse(response: Response)

  /**
   * The dispatcher every CRUD handler shares: GET lists, POST creates, PUT
   * and DELETE need a non-empty `uuid` path parameter, and any other method
   * is not allowed.
   */
  function RouteOf(req: Request, cors: bool): (r: Route)
    ensures r == Refuse(ErrorReply(BAD_REQUEST, MISSING_UUID, cors)) <==>
      req.httpMethod in {"PUT", "DELETE"} && !HasUuid(req)
    ensures r == Refuse(Response(METHOD_NOT_ALLOWED, None, cors)) <==>
      req.httpMethod !in {"GET", "POST", "PUT", "DELETE"}
    ensures r.Refuse? ==> r == Refuse(ErrorReply(BAD_REQUEST, MISSING_UUID, cors)) || r == Refuse(Response(METHOD_NOT_ALLOWED, None, cors))
    ensures r.List? <==> req.httpMethod == "GET"
    ensures r.Create? <==> req.httpMethod == "POST"
    ensures r.Create? ==> r.body == req.body
    ensures r.Update? <==> req.httpMethod == "PUT" && HasUuid(req)
    ensures r.Update? ==> r.uuid == req.uuid.value && r.body == req.body
    ensures r.Remove? <==> req.httpMethod == "DELETE" && HasUuid(req)
    ensures r.Remove? ==> r.uuid == req.uuid.value
  {
    match req.httpMethod
    case "GET" => List
    case "POST" => Create(req.body)
    case "PUT" => if HasUuid(req) then Update(req.uuid.value, req.body) else Refuse(ErrorReply(BAD_REQUEST, MISSING_UUID, cors))
    case "DELETE" => if HasUuid(req) then Remove(req.uuid.value) else Refuse(ErrorReply(BAD_REQUEST, MISSING_UUID, cors))
    case _ => Refuse(Response(METHOD_NOT_ALLOWED, None, cors))
  }

  /** The catch-all of the handlers under `functions/`: whatever is thrown becomes a 500 carrying its message. */
  function ServerError(message: string): (r: Response)
    ensures r.statusCode == INTERNAL_SERVER_ERROR && r.body == Some(ErrorBody(message)) && r.cors
  {
    ErrorReply(INTERNAL_SERVER_ERROR, message, true)
  }
}
