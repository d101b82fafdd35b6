/**
 * The layout: it loads the task list, tracks the `loading` and `error` state of
 * that load, and derives the statistics panel and the recent-activity list.
 */
module Layout {
  import opened Wrappers
  import opened JsValue
  import opened Text
  import opened Seqs
  import opened Percent
  import opened ClientTask

  /** The `data` of the HTTP response, as far as its shape matters here. */
  datatype Payload =
    | Array(items: seq<TaskView>)
    | Record(tasks: Option<Payload>, data: Option<Payload>)  // an object, with its `tasks` and `data` fields
    | Scalar                                                // null, a string, a number or a boolean

  predicate IsArray(p: Option<Payload>) {
    p.Some? && p.value.Array?
  }

  /** The task list taken from the response: `data`, else `data.tasks`, else `data.data`, else empty. */
  function TaskList(data: Payload): seq<TaskView> {
    if data.Array? then data.items
    else if data.Record? && IsArray(data.tasks) then data.tasks.value.items
    else if data.Record? && IsArray(data.data) then data.data.value.items
    else []
  }

  /** The client's completion test: `true`, `1`, or a string that is `yes` in any case. */
  predicate IsCompleted(v: Value) {
    v == Bool(true) || v == Num(1) || (v.Str? && Lower(v.s) == "yes")
  }

  predicate IsDone(t: TaskView) {
    IsCompleted(t.completed)
  }

  predicate IsPending(t: TaskView) {
    !IsCompleted(t.completed)
  }

  datatype Stats = Stats(totalCount: nat, completedTasks: nat, pendingCount: int, completionPercentage: nat)

  /** The `stats` memo. */
  function ComputeStats(tasks: seq<TaskView>): (s: Stats)
    ensures s.totalCount == |tasks|
    ensures s.completedTasks + s.pendingCount == s.totalCount
    ensures s.pendingCount == |Filter(tasks, IsPending)|
    ensures s.completionPercentage <= 100
    ensures s.completedTasks == 0 ==> s.completionPercentage == 0
    ensures tasks != [] && s.completedTasks == |tasks| ==> s.completionPercentage == 100
  {
    var done := |Filter(tasks, IsDone)|;
    FilterComplement(tasks, IsDone, IsPending);
    PercentFacts(done, |tasks|);
    Stats(|tasks|, done, |tasks| - done, RoundPercent(done, |tasks|))
  }

  /** The completed count is the number of tasks passing `IsCompleted`, and it is everything when all do. */
  lemma AllDoneCountsAll(tasks: seq<TaskView>)
    requires forall i :: 0 <= i < |tasks| ==> IsCompleted(tasks[i].completed)
    ensures ComputeStats(tasks).completedTasks == |tasks| && ComputeStats(tasks).pendingCount == 0
  {
    FilterAll(tasks, IsDone);
  }

  /** `tasks.slice(0, 3)`: the first three tasks, or all of them when there are fewer. */
  function Recent(tasks: seq<TaskView>): (r: seq<TaskView>)
    ensures |r| == if |tasks| < 3 then |tasks| else 3
    ensures forall i :: 0 <= i < |r| ==> r[i] == tasks[i]
  {
    if |tasks| < 3 then tasks else tasks[..3]
  }

  /** The header `fetchTasks` sends. */
  function AuthorizationHeader(token: string): string {
    "Bearer " + token
  }

  /** The outcome of the `GET` request, which the model takes as given. */
  datatype Response =
    | Received(data: Payload)
    | Failed(message: string, status: Option<int>)  // the error's message and the response status, if any

  /** The layout's state: `tasks`, `loading` and `error`. */
  class Loader {
    var tasks: seq<TaskView>
    var loading: bool
    var error: Option<string>

    /** The initial `useState` values. */
    constructor ()
      ensures tasks == [] && loading && error == None
    {
      tasks := [];
      loading := true;
      error := None;
    }

    /** The start of `fetchTasks`: loading, with no error, the old list still shown. */
    method BeginFetch()
      modifies this
      ensures loading && error == None && tasks == old(tasks)
    {
      loading := true;
      error := None;
    }

    /**
     * `fetchTasks`, given the stored token and the server's response. A failed
     * load keeps the old list and records an error; the load always ends with
     * `loading` false. The result says whether `onLogout` was called.
     */
    method FetchTasks(token: Option<string>, response: Response) returns (loggedOut: bool)
      modifies this
      ensures !loading
      ensures token.None? || token.value == "" ==>
                tasks == old(tasks) && error == Some("No auth token found") && !loggedOut
      ensures token.Some? && token.value != "" && response.Received? ==>
                tasks == TaskList(response.data) && error == None && !loggedOut
      ensures token.Some? && token.value != "" && response.Failed? ==>
                && tasks == old(tasks)
                && error == Some(if response.message != "" then response.message else "Could not load tasks")
                && loggedOut == (response.status == Some(401))
    {
      BeginFetch();
      loggedOut := false;
      if token.None? || token.value == "" {
        error := Some("No auth token found");
      } else if response.Received? {
        tasks := TaskList(response.data);
      } else {
        error := Some(if response.message != "" then response.message else "Could not load tasks");
        if response.status == Some(401) {
          loggedOut := true;
        }
      }
      loading := false;
    }
  }
}
