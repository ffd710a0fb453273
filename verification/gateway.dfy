/**
 The shapes exchanged with the API gateway: the request a handler receives,
 the response it returns, and the outcome of one invocation (the response
 together with the task table as it stands afterwards).

 Request bodies arrive already parsed into a flat string-to-string object;
 response bodies are tagged values standing for the JSON the handlers
 serialise.
 */
module Gateway {
  import opened Wrappers
  import opened Tasks

  /**
   A request body parsed as a flat JSON object of strings; a member whose
   value is JSON `null` maps to `None`.
   */
  type JsonObject = map<string, Option<string>>

  /** An inbound proxy request: HTTP method, path parameters, parsed body. */
  datatype Request = Request(
    httpMethod: string,
    pathParameters: Option<map<string, string>>,
    body: Option<JsonObject>)

  /** A response body: one task, an array of tasks, or `{"message": ...}`. */
  datatype Body =
    | TaskJson(task: TaskItem)
    | TaskListJson(tasks: seq<TaskItem>)
    | MessageJson(message: string)

  /** A proxy response; `headers` is `None` when the handler leaves them unset. */
  datatype Response = Response(statusCode: int, body: Body, headers: Option<map<string, string>>)

  /** What one invocation produces: its response and the table afterwards. */
  datatype Outcome = Outcome(response: Response, store: Store)

  const OK: int := 200
  const Created: int := 201
  const BadRequest: int := 400
  const NotFound: int := 404
  const MethodNotAllowed: int := 405

  const TaskNotFound: string := "Task not found."
  const MissingTitle: string := "Missing 'title' in request body."
  const NotAllowed: string := "Method not allowed."

  /** The only header any response carries, and only on success. */
  const JsonHeaders: map<string, string> := map["Content-Type" := "application/json"]

  /** A successful response with a JSON body. */
  function JsonResponse(statusCode: int, body: Body): Response {
    Response(statusCode, body, Some(JsonHeaders))
  }

  /** An error response: a message body and no headers. */
  function ErrorResponse(statusCode: int, message: string): Response {
    Response(statusCode, MessageJson(message), None)
  }

  /** The table is left as it was and the response is the given error. */
  predicate IsError(out: Outcome, store: Store, statusCode: int, message: string) {
    out == Outcome(ErrorResponse(statusCode, message), store)
  }

  /** A 200 listing every stored task once, with the table left as it was. */
  predicate IsListing(out: Outcome, store: Store) {
    && out.store == store
    && out.response.statusCode == OK
    && out.response.headers == Some(JsonHeaders)
    && out.response.body.TaskListJson?
    && ListsEachTaskOnce(out.response.body.tasks, store)
  }

  /**
   A 201 whose body is a new, incomplete task with identifier `newId` and
   title `title`; the table gains exactly that entry and nothing else changes.
   */
  predicate IsCreation(out: Outcome, store: Store, newId: string, title: Option<string>) {
    && out.response.statusCode == Created
    && out.response.headers == Some(JsonHeaders)
    && out.store.Keys == store.Keys + {newId}
    && newId in out.store
    && out.store[newId] == TaskItem(newId, title, false)
    && out.response.body == TaskJson(out.store[newId])
    && (forall k :: k in store ==> k in out.store && out.store[k] == store[k])
  }
}
