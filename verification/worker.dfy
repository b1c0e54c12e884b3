/**
 * The slice of the `worker` runtime the handlers touch: the errors they
 * propagate with `?`, the decoded request body, and the response they build.
 */
module Worker {
  import opened Wrappers
  import opened State

  /** The `worker::Error` a handler returns through `?`. */
  datatype Error =
    | MalformedBody                  // `req.json::<T>()` could not decode the request body
    | UndecodableValue(key: string)  // the value stored at `key` is not JSON of a Todo
    | KvFailure(message: string)     // the KV backend rejected a call

  /** A request body after `req.json::<T>()`: decoded, or rejected by serde. */
  datatype Json<+T> = Parsed(value: T) | Malformed

  /** What a response carries: plain text or one of the JSON payloads this service emits. */
  datatype Body =
    | Text(text: string)
    | TodoJson(todo: Todo)
    | TodoArrayJson(todos: seq<Todo>)
    | NullableTodoArrayJson(entries: seq<Option<Todo>>)  // `Vec<Option<Todo>>`: `None` is `null`

  datatype Response = Response(status: nat, body: Body)

  /** What a handler invocation ends in. */
  datatype Outcome =
    | Respond(response: Response)  // `Ok(response)`
    | Fail(error: Error)           // `Err(error)` propagated by `?`
    | Panic                        // `unwrap` on a failed parse aborts the invocation

  /** `Response::ok(text)`. */
  function OkText(text: string): Response
  {
    Response(200, Text(text))
  }

  /** `Response::from_json(payload)`. */
  function FromJson(payload: Body): Response
  {
    Response(200, payload)
  }

  /** `Response::error(message, status)`. */
  function ErrorResponse(message: string, status: nat): Response
  {
    Response(status, Text(message))
  }
}
