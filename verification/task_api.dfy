/**
 The request dispatcher of the task API (TaskManager.API/Function.cs).

 It routes on the HTTP method and on whether the path carries an `id`:
 GET without an id lists, GET with an id looks one task up, POST creates,
 and everything else is refused with 405. There is no update or delete
 route, so PUT and DELETE are refused too.

 Two collaborators are passed in: `newId` stands for the fresh GUID a
 create draws, and `scanOrder` for the order in which the backend's full
 scan happens to return the table's keys.
 */
module TaskApi {
  import opened Wrappers
  import opened Tasks
  import opened Gateway

  /** The task identifier in the path: present exactly when the path parameters exist and hold `id`. */
  function TaskIdOf(request: Request): (taskId: Option<string>)
    ensures taskId.Some? <==> request.pathParameters.Some? && "id" in request.pathParameters.value
    ensures taskId.Some? ==> taskId.value == request.pathParameters.value["id"]
  {
    match request.pathParameters
    case None => None
    case Some(parameters) => Get(parameters, "id")
  }

  /** Scans the whole table and answers 200 with every task in it. */
  function ListTasks(store: Store, scanOrder: seq<string>): (out: Outcome)
    requires IsScanOrder(store, scanOrder)
    ensures IsListing(out, store)
    ensures WellFormed(store) ==> Distinct(out.response.body.tasks)
  {
    ScanOrderLength(store, scanOrder);
    Outcome(JsonResponse(OK, TaskListJson(Scan(store, scanOrder))), store)
  }

  /** Loads one task: 200 with the task when its key is stored, 404 otherwise. */
  function GetTaskById(store: Store, taskId: string): (out: Outcome)
    ensures out.store == store
    ensures taskId !in store ==> IsError(out, store, NotFound, TaskNotFound)
    ensures taskId in store ==>
      out.response == Response(OK, TaskJson(store[taskId]), Some(JsonHeaders))
    ensures WellFormed(store) && out.response.statusCode == OK ==>
      out.response.body.TaskJson? && out.response.body.task.taskId == taskId
  {
    match Load(store, taskId)
    case None => Outcome(ErrorResponse(NotFound, TaskNotFound), store)
    case Some(task) => Outcome(JsonResponse(OK, TaskJson(task)), store)
  }

  /**
   Creates a task from a parsed body: 400 and no save when `title` is
   missing, otherwise a new incomplete task with that title (an empty or a
   null one included) under `newId`, saved and returned with 201.
   */
  function CreateTask(store: Store, body: JsonObject, newId: string): (out: Outcome)
    requires FreshId(store, newId)
    ensures "title" !in body ==> IsError(out, store, BadRequest, MissingTitle)
    ensures "title" in body ==> IsCreation(out, store, newId, body["title"])
    ensures "title" in body ==> |out.store| == |store| + 1
    ensures WellFormed(store) ==> WellFormed(out.store)
  {
    match Get(body, "title")
    case None => Outcome(ErrorResponse(BadRequest, MissingTitle), store)
    case Some(title) =>
      var task := TaskItem(newId, title, false);
      Outcome(JsonResponse(Created, TaskJson(task)), Save(store, task))
  }

  /** What the dispatcher requires of one invocation's inputs. */
  predicate Admissible(store: Store, request: Request, newId: string, scanOrder: seq<string>) {
    && FreshId(store, newId)
    && IsScanOrder(store, scanOrder)
    && (request.httpMethod == "POST" ==> request.body.Some?)
  }

  /** Routes one request on (method, id present) and performs at most one table operation. */
  function FunctionHandler(store: Store, request: Request, newId: string, scanOrder: seq<string>): (out: Outcome)
    requires Admissible(store, request, newId, scanOrder)
    ensures request.httpMethod == "GET" && TaskIdOf(request).None? ==> IsListing(out, store)
    ensures request.httpMethod == "GET" && TaskIdOf(request).Some? ==>
      var taskId := TaskIdOf(request).value;
      && out.store == store
      && (taskId !in store ==> IsError(out, store, NotFound, TaskNotFound))
      && (taskId in store ==> out.response == Response(OK, TaskJson(store[taskId]), Some(JsonHeaders)))
    ensures request.httpMethod == "POST" && "title" !in request.body.value ==>
      IsError(out, store, BadRequest, MissingTitle)
    ensures request.httpMethod == "POST" && "title" in request.body.value ==>
      IsCreation(out, store, newId, request.body.value["title"])
    ensures request.httpMethod != "GET" && request.httpMethod != "POST" ==>
      IsError(out, store, MethodNotAllowed, NotAllowed)
    ensures out.store != store <==> out.response.statusCode == Created
    ensures |out.store| == |store| + (if out.response.statusCode == Created then 1 else 0)
    ensures out.response.statusCode in {OK, Created, BadRequest, NotFound, MethodNotAllowed}
    ensures WellFormed(store) ==> WellFormed(out.store)
  {
    var taskId := TaskIdOf(request);
    if request.httpMethod == "GET" && taskId.None? then
      ListTasks(store, scanOrder)
    else if request.httpMethod == "GET" && taskId.Some? then
      GetTaskById(store, taskId.value)
    else if request.httpMethod == "POST" then
      CreateTask(store, request.body.value, newId)
    else
      Outcome(ErrorResponse(MethodNotAllowed, NotAllowed), store)
  }
}
