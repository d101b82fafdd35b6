/**
 * What crosses the wire between the task routes and the client: a stored task
 * as JSON, the `{success, tasks}` body of the list route as the layout reads
 * it, and the `Authorization` header the layout sends as the middleware reads
 * it. Dates are sent as the timestamp the client parses them to.
 */
module Wire {
  import opened Wrappers
  import opened JsValue
  import opened Text
  import opened ClientTask
  import opened TaskController
  import opened Jwt
  import opened UserModel
  import opened UserController
  import Layout
  import Dashboard
  import Auth

  /** `res.json` of a stored task, as the client sees it. The record carries `dueDate`, never `DueDate`. */
  function View(t: Task): TaskView {
    TaskView(t.title,
             if t.priority.Str? then Some(t.priority.s) else None,
             Bool(t.completed),
             t.createdAt,
             if t.dueDate.Num? then Some(t.dueDate.n) else None,
             None)
  }

  function Views(ts: seq<Task>): (vs: seq<TaskView>)
    ensures |vs| == |ts| && forall i :: 0 <= i < |ts| ==> vs[i] == View(ts[i])
  {
    seq(|ts|, i requires 0 <= i < |ts| => View(ts[i]))
  }

  /** The body `getTasks` sends: `{success: true, tasks}`, an object with a `tasks` array. */
  function ListBody(ts: seq<Task>): Layout.Payload {
    Layout.Record(Some(Layout.Array(Views(ts))), None)
  }

  /** The layout's shape test finds the list the server sent in the `tasks` field, whatever `data` holds. */
  lemma ListBodyReachesClient(ts: seq<Task>, data: Option<Layout.Payload>)
    ensures Layout.TaskList(ListBody(ts)) == Views(ts)
    ensures Layout.TaskList(Layout.Record(Some(Layout.Array(Views(ts))), data)) == Views(ts)
  {
  }

  /** A stored flag reaches the client as a boolean, which the client's rule reads back unchanged. */
  lemma ClientReadsStoredFlag(t: Task)
    ensures Layout.IsDone(View(t)) == t.completed
  {
  }

  /**
   * The dashboard's date filters read `DueDate`, which no stored task has, so
   * `today` and `week` are empty on every list the server sends.
   */
  lemma ServerListsMissDateFilters(ts: seq<Task>, now: int, sameDay: (int, int) -> bool)
    ensures Dashboard.FilteredTasks(Views(ts), "week", now, sameDay) == []
    ensures Dashboard.FilteredTasks(Views(ts), "today", now, sameDay) == []
  {
    Dashboard.DateFiltersIgnoreDueDate(Views(ts), now, sameDay);
  }

  /**
   * The header `Bearer ${token}` the layout builds from a token issued at
   * `issued` passes the middleware's prefix test and, for the next 24 hours,
   * verifies to the id it was issued for.
   */
  lemma ClientHeaderAccepted(id: UserId, issued: nat, now: nat)
    requires issued <= now < issued + TOKEN_EXPIRES
    ensures StartsWith(Layout.AuthorizationHeader(CreateToken(id, issued)), "Bearer")
    ensures Verify(Auth.BearerToken(Layout.AuthorizationHeader(CreateToken(id, issued))), JWT_SECRET, now)
            == Verified(Claims(id, issued, issued + TOKEN_EXPIRES))
  {
    Auth.SecretHasNoSpace();
    SignNoSpace(Claims(id, issued, issued + TOKEN_EXPIRES), JWT_SECRET);
    Auth.BearerTokenOf(CreateToken(id, issued));
    Auth.IssuedTokenAccepted(id, issued, now);
  }
}
