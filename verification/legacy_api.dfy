/**
 The older dispatcher kept at the repository root (Function.cs).

 It switches on the HTTP method alone: every GET lists, whatever the path
 says; POST creates; anything else is refused with 405. Its CreateTask and
 ListTasks are the same code as the task API's, so the model reuses those.
 */
module LegacyApi {
  import opened Wrappers
  import opened Tasks
  import opened Gateway
  import TaskApi

  /** Routes one request on its method only. */
  function FunctionHandler(store: Store, request: Request, newId: string, scanOrder: seq<string>): (out: Outcome)
    requires TaskApi.Admissible(store, request, newId, scanOrder)
    ensures request.httpMethod == "GET" ==> IsListing(out, store)
    ensures request.httpMethod == "POST" && "title" !in request.body.value ==>
      IsError(out, store, BadRequest, MissingTitle)
    ensures request.httpMethod == "POST" && "title" in request.body.value ==>
      IsCreation(out, store, newId, request.body.value["title"])
    ensures request.httpMethod != "GET" && request.httpMethod != "POST" ==>
      IsError(out, store, MethodNotAllowed, NotAllowed)
    ensures out.store != store <==> out.response.statusCode == Created
    ensures |out.store| == |store| + (if out.response.statusCode == Created then 1 else 0)
    ensures out.response.statusCode in {OK, Created, BadRequest, MethodNotAllowed}
    ensures WellFormed(store) ==> WellFormed(out.store)
  {
    match request.httpMethod
    case "GET" => TaskApi.ListTasks(store, scanOrder)
    case "POST" => TaskApi.CreateTask(store, request.body.value, newId)
    case _ => Outcome(ErrorResponse(MethodNotAllowed, NotAllowed), store)
  }

  /**
   The two dispatchers agree on every request except a GET whose path
   carries an id: there the older one lists the whole table while the task
   API looks the one task up.
   */
  lemma DispatchersDifferOnlyOnGetById(store: Store, request: Request, newId: string, scanOrder: seq<string>)
    requires TaskApi.Admissible(store, request, newId, scanOrder)
    ensures !(request.httpMethod == "GET" && TaskApi.TaskIdOf(request).Some?) ==>
      FunctionHandler(store, request, newId, scanOrder) == TaskApi.FunctionHandler(store, request, newId, scanOrder)
    ensures request.httpMethod == "GET" && TaskApi.TaskIdOf(request).Some? ==>
      && FunctionHandler(store, request, newId, scanOrder).response.body.TaskListJson?
      && !TaskApi.FunctionHandler(store, request, newId, scanOrder).response.body.TaskListJson?
  {
  }
}
