/**
 Sequences of invocations against one task table.

 Each handler call is independent, so a session is the left fold of the
 dispatcher over its calls. The lemmas here state what holds across calls:
 the table stays well formed, it only ever grows, it grows by exactly one
 entry per 201, an existing task is never altered, and reads are
 repeatable.
 */
module Sessions {
  import opened Tasks
  import opened Gateway
  import TaskApi
  import LegacyApi

  /** Which of the two dispatchers serves the session. */
  datatype Version = Api | Legacy

  /** One invocation: the request, the GUID it would draw and the scan order the backend would use. */
  datatype Call = Call(request: Request, newId: string, scanOrder: seq<string>)

  /** The responses of a session, in call order, and the table at its end. */
  datatype Session = Session(responses: seq<Response>, store: Store)

  predicate Fits(store: Store, call: Call) {
    TaskApi.Admissible(store, call.request, call.newId, call.scanOrder)
  }

  function Handle(version: Version, store: Store, call: Call): (out: Outcome)
    requires Fits(store, call)
  {
    match version
    case Api => TaskApi.FunctionHandler(store, call.request, call.newId, call.scanOrder)
    case Legacy => LegacyApi.FunctionHandler(store, call.request, call.newId, call.scanOrder)
  }

  /** Every call fits the table as the calls before it have left it. */
  predicate Feasible(version: Version, store: Store, calls: seq<Call>)
    decreases |calls|
  {
    calls == [] ||
    (Fits(store, calls[0]) && Feasible(version, Handle(version, store, calls[0]).store, calls[1..]))
  }

  /** Runs the calls in order, threading the table through. */
  function Run(version: Version, store: Store, calls: seq<Call>): (s: Session)
    requires Feasible(version, store, calls)
    ensures |s.responses| == |calls|
    ensures forall i :: 0 <= i < |calls| ==>
      s.responses[i].statusCode in {OK, Created, BadRequest, NotFound, MethodNotAllowed}
    decreases |calls|
  {
    if calls == [] then Session([], store)
    else
      var out := Handle(version, store, calls[0]);
      var rest := Run(version, out.store, calls[1..]);
      Session([out.response] + rest.responses, rest.store)
  }

  /** The number of 201 responses. */
  function CreatedCount(responses: seq<Response>): nat {
    if responses == [] then 0
    else (if responses[0].statusCode == Created then 1 else 0) + CreatedCount(responses[1..])
  }

  /** A session started on a well-formed table ends on one. */
  lemma {:induction false} RunPreservesWellFormed(version: Version, store: Store, calls: seq<Call>)
    requires Feasible(version, store, calls)
    requires WellFormed(store)
    ensures WellFormed(Run(version, store, calls).store)
    decreases |calls|
  {
    if calls != [] {
      RunPreservesWellFormed(version, Handle(version, store, calls[0]).store, calls[1..]);
    }
  }

  /**
   No task is ever removed or altered: every entry present at the start is
   present, unchanged, at the end.
   */
  lemma {:induction false} RunKeepsExistingTasks(version: Version, store: Store, calls: seq<Call>)
    requires Feasible(version, store, calls)
    ensures var final := Run(version, store, calls).store;
      forall k :: k in store ==> k in final && final[k] == store[k]
    decreases |calls|
  {
    if calls != [] {
      var out := Handle(version, store, calls[0]);
      RunKeepsExistingTasks(version, out.store, calls[1..]);
    }
  }

  /** The table grows by exactly one entry for each 201 answered in the session. */
  lemma {:induction false} RunGrowsByCreatedCount(version: Version, store: Store, calls: seq<Call>)
    requires Feasible(version, store, calls)
    ensures var s := Run(version, store, calls);
      |s.store| == |store| + CreatedCount(s.responses)
    decreases |calls|
  {
    if calls != [] {
      var out := Handle(version, store, calls[0]);
      var rest := Run(version, out.store, calls[1..]);
      RunGrowsByCreatedCount(version, out.store, calls[1..]);
      assert Run(version, store, calls).responses[1..] == rest.responses;
    }
  }

  /** A session with no 201 in it leaves the table exactly as it found it. */
  lemma {:induction false} RunWithoutCreatesChangesNothing(version: Version, store: Store, calls: seq<Call>)
    requires Feasible(version, store, calls)
    requires CreatedCount(Run(version, store, calls).responses) == 0
    ensures Run(version, store, calls).store == store
    decreases |calls|
  {
    if calls != [] {
      var out := Handle(version, store, calls[0]);
      var rest := Run(version, out.store, calls[1..]);
      assert Run(version, store, calls).responses[1..] == rest.responses;
      RunWithoutCreatesChangesNothing(version, out.store, calls[1..]);
    }
  }

  /**
   Issuing the same GET twice in a row leaves the table untouched. A lookup
   by id answers identically both times; a listing may come back in another
   scan order, but with the same length and the same tasks.
   */
  lemma RepeatedGetIsStable(version: Version, store: Store, first: Call, second: Call)
    requires Fits(store, first) && Fits(store, second)
    requires first.request == second.request
    requires first.request.httpMethod == "GET"
    ensures Feasible(version, store, [first, second])
    ensures var s := Run(version, store, [first, second]);
      && s.store == store
      && s.responses[0].statusCode == s.responses[1].statusCode
      && s.responses[0].headers == s.responses[1].headers
      && (version == Api && TaskApi.TaskIdOf(first.request).Some? ==> s.responses[0] == s.responses[1])
      && (version == Legacy || TaskApi.TaskIdOf(first.request).None? ==>
            && s.responses[0].body.TaskListJson?
            && s.responses[1].body.TaskListJson?
            && |s.responses[0].body.tasks| == |s.responses[1].body.tasks|
            && (forall t :: t in s.responses[0].body.tasks <==> t in s.responses[1].body.tasks))
  {
    var out := Handle(version, store, first);
    var again := Handle(version, store, second);
    assert out.store == store && again.store == store;
    assert [first, second][1..] == [second];
    assert [second][1..] == [];
    assert Feasible(version, store, [second]);
    assert Run(version, store, [second]) == Session([again.response], store);
    assert Run(version, store, [first, second]) == Session([out.response, again.response], store);
  }

}
