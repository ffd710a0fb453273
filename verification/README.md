# Task manager API dispatcher — a Dafny model

This project models the request dispatcher of a serverless task API. Each
invocation receives an API-gateway proxy request: an HTTP method, optional
path parameters and a body. It does at most one operation on a DynamoDB
table of tasks and returns a proxy response with a status code, optional
headers and a JSON body.

The repository holds two versions of the dispatcher, and both are modelled
as pure functions from (table, request) to (response, new table):

- `TaskApi.FunctionHandler` (TaskManager.API/Function.cs) routes on the
  method and on whether the path carries an `id`:
  - GET without an id lists every task.
  - GET with an id looks up one task: 200 if it is stored, 404 if not.
  - POST creates a task: 400 without a `title`, 201 otherwise.
  - Any other method gets 405.
- `LegacyApi.FunctionHandler` (the root Function.cs) routes on the method
  alone, so every GET lists the table.

The model is laid out in these modules:

- `Tasks`: the `TaskItem` entity and the table, a `map` from hash key to
  item. It also holds the three backend calls the handlers make: load by
  key, save, and full scan.
- `Gateway`: request, response and outcome shapes, the status codes, the
  messages, and predicates describing a listing, a creation and an error
  outcome.
- `TaskApi` and `LegacyApi`: the two dispatchers.
- `Sessions`: sequences of invocations, and what holds across them.

Two things outside the code become parameters:

- `newId` stands for the GUID that `Guid.NewGuid()` draws. The model
  requires it to be non-empty and not yet a key of the table.
- `scanOrder` stands for the order in which the backend's full scan
  returns keys. It must list every key exactly once, and the backend
  chooses which such order.

The request body arrives already parsed into a flat JSON object of
strings, `map<string, Option<string>>`, where a member whose value is JSON
`null` maps to `None`. Response bodies are tagged values: one task, a task
array, or a message.

Three behaviours of the code are worth stating plainly:

- There is no update or delete route, so PUT and DELETE get 405.
- Any value under `title` is accepted, including the empty string and
  JSON `null`. A null title is saved as a task with a null `Title`
  (`None` in the model), and the answer is 201.
- POST creates a task whether or not the path carries an id.

## Model

| member | source | states |
|---|---|---|
| `Tasks.Load` | TaskManager.API/Function.cs:98 | A load finds an item exactly when its key is stored. In a well-formed table, the item found carries the requested id. |
| `Tasks.Save` | TaskManager.API/Function.cs:83 | A save puts the item under its own `TaskId` and leaves every other entry unchanged. A new key grows the table by one, and well-formedness is kept. |
| `Tasks.Scan` | TaskManager.API/Function.cs:122 | A scan returns one item per visited key, namely the item stored under that key, in visiting order. |
| `Tasks.ScanOrderLength` | TaskManager.API/Function.cs:122 | Any order in which a full scan may visit the table (each key exactly once) has exactly as many entries as the table has keys, so the listing has one entry per stored task. |
| `TaskApi.TaskIdOf` | TaskManager.API/Function.cs:40 | The task id is present exactly when path parameters exist and contain `id`, and then it equals that value. |
| `TaskApi.ListTasks` | TaskManager.API/Function.cs:120-133 | Listing answers 200 with `Content-Type: application/json`. The body lists every stored task and nothing else, one entry per key, and in a well-formed table no task appears twice. The table is unchanged. |
| `TaskApi.GetTaskById` | TaskManager.API/Function.cs:96-118 | An unknown id gets 404 "Task not found." with no headers. A stored id gets 200 with exactly that task and JSON headers. The table is unchanged either way. |
| `TaskApi.CreateTask` | TaskManager.API/Function.cs:63-94 | Without `title`: 400 "Missing 'title' in request body.", nothing saved. With `title` (empty or null allowed): 201 and one new entry with the fresh id, that title and `IsComplete` false. The returned task is the saved one, and no other entry changes. |
| `TaskApi.FunctionHandler` | TaskManager.API/Function.cs:36-60 | Routing by (method, id present): GET without id lists, GET with id looks up, POST creates with or without an id, and any other method (PUT and DELETE included) gets 405 "Method not allowed." without touching the table. The table changes exactly when the answer is 201, and then by one entry. Only 200, 201, 400, 404 and 405 are ever returned. |
| `LegacyApi.FunctionHandler` | Function.cs:36-94 | Any GET lists every stored task whatever the path parameters. POST without `title` gets 400 and no save. POST with `title` gets 201 and exactly one new incomplete task. Any other method gets 405. The table changes exactly when the answer is 201, by one key. |
| `LegacyApi.DispatchersDifferOnlyOnGetById` | Function.cs:40-45 | The two dispatchers give identical outcomes except for a GET whose path carries an id. There the root version lists the table, while the task API looks the task up. |
| `Sessions.Run` | TaskManager.API/Function.cs:36-60 | Running a sequence of invocations gives one response per call, each with a status among 200, 201, 400, 404 and 405. The same holds whichever dispatcher serves the session, the root one (Function.cs:40-45) included. |
| `Sessions.RunPreservesWellFormed` | TaskManager.API/Function.cs:76-83 | Each task is stored under its own non-empty id, and this holds after every session, because a create saves a task under the id it was given. The same holds whichever dispatcher serves the session, the root one (Function.cs:40-45) included. |
| `Sessions.RunKeepsExistingTasks` | TaskManager.API/Function.cs:42-60 | No route removes or alters a stored task: every entry present before a session is present and unchanged after it. The same holds whichever dispatcher serves the session, the root one (Function.cs:40-45) included. |
| `Sessions.RunGrowsByCreatedCount` | TaskManager.API/Function.cs:83-87 | Over a session, the table grows by exactly the number of 201 responses. The same holds whichever dispatcher serves the session, the root one (Function.cs:40-45) included. |
| `Sessions.RunWithoutCreatesChangesNothing` | TaskManager.API/Function.cs:42-60 | A session with no 201 response leaves the table exactly as it was. The same holds whichever dispatcher serves the session, the root one (Function.cs:40-45) included. |
| `Sessions.RepeatedGetIsStable` | TaskManager.API/Function.cs:42-48 | Two identical GETs in a row leave the table untouched and answer with the same status and headers. Each call may get its own scan order. A lookup by id answers identically both times. A listing, which every GET is in the root dispatcher (Function.cs:42), returns the same number of tasks and the same set of tasks, possibly in another order. |

## Left out

- DynamoDB itself is replaced by a `map`: the client, table attributes, consistency, throttling and scan pagination (`GetRemainingAsync` collecting pages). A backend fault, which the code does not catch, is not modelled.
- JSON serialisation by System.Text.Json is left out. The request body is an already-parsed string map and response bodies are tagged values. A null or malformed body, or one with a member whose value is neither a string nor `null` (a number, a boolean, an object), makes `Deserialize` throw in the source, and no handler catches that exception. The model therefore requires a POST to carry a parsed body instead of modelling the failure.
- `Guid.NewGuid()` is replaced by the `newId` parameter. Its precondition, non-empty and not already a key, is what a fresh GUID provides.
- The order of scan results belongs to the backend and is the `scanOrder` parameter.
- Lambda logging (`context.Logger.LogLine`), async/await, and the two constructors and client bootstrap are left out. None of them affects a response or the table.
- A null HTTP method and null path-parameter values cannot be written in this model. A null method would get 405 in both dispatchers.
- The backend rejects an empty-string key, while the model looks it up like any other id. In a well-formed table that lookup gives 404.
- Update and delete routes and 500-class error handling are not modelled, because neither dispatcher contains them.
