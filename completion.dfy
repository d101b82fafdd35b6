/**
 * The four completion rules side by side: on create (`'yes'` or `true`), on
 * update (`'Yes'` or `true`), in the layout, dashboard and completed page
 * (`true`, `1` or any-case `'yes'`) and in the sidebar (truthiness). They agree
 * on booleans and disagree on strings and numbers.
 */
module Completion {
  import opened Wrappers
  import opened JsValue
  import Text
  import opened Seqs
  import opened ClientTask
  import TaskController
  import Layout
  import CompletePage
  import Sidebar
  import Dashboard
  import Wire

  /** The completed page's `includes` test is the layout's test, written differently. */
  lemma ListedIsCompleted(v: Value)
    ensures CompletePage.IsListed(v) <==> Layout.IsCompleted(v)
  {
    if v.Str? {
      assert CompletePage.Normalised(v) == Str(Text.Lower(v.s));
    }
  }

  /** On a boolean, which is what the server stores, all four rules agree. */
  lemma RulesAgreeOnBooleans(b: bool)
    ensures TaskController.CreateCompleted(Bool(b)) == b
    ensures TaskController.UpdateCompleted(Bool(b)) == b
    ensures Layout.IsCompleted(Bool(b)) == b
    ensures Truthy(Bool(b)) == b
  {
  }

  /** Inputs on which the rules part ways. */
  lemma RulesDisagree()
    // 'yes': complete on create and in the client, reopened on update.
    ensures TaskController.CreateCompleted(Str("yes")) && !TaskController.UpdateCompleted(Str("yes"))
    ensures Layout.IsCompleted(Str("yes"))
    // 'Yes': open on create, complete on update and in the client.
    ensures !TaskController.CreateCompleted(Str("Yes")) && TaskController.UpdateCompleted(Str("Yes"))
    ensures Layout.IsCompleted(Str("Yes"))
    // 1: open on the server, complete in the client.
    ensures !TaskController.CreateCompleted(Num(1)) && !TaskController.UpdateCompleted(Num(1))
    ensures Layout.IsCompleted(Num(1)) && Truthy(Num(1))
    // 'no': open everywhere except the sidebar.
    ensures !TaskController.CreateCompleted(Str("no")) && !Layout.IsCompleted(Str("no")) && Truthy(Str("no"))
    // 2: counted by the sidebar only.
    ensures !Layout.IsCompleted(Num(2)) && Truthy(Num(2))
  {
    assert Text.Lower("Yes") == "yes";
    assert Text.Lower("no") == "no";
  }

  /** Every value the client calls complete is truthy. */
  lemma CompletedIsTruthy(v: Value)
    ensures Layout.IsCompleted(v) ==> Truthy(v)
  {
  }

  lemma {:induction false} FilterWeaker(s: seq<TaskView>)
    ensures |Filter(s, Layout.IsDone)| <= |Filter(s, Sidebar.IsTruthy)|
  {
    if s != [] {
      FilterWeaker(s[1..]);
      CompletedIsTruthy(s[0].completed);
    }
  }

  /** So the sidebar never counts fewer completed tasks than the statistics panel. */
  lemma SidebarCountsAtLeastLayout(tasks: seq<TaskView>)
    ensures Layout.ComputeStats(tasks).completedTasks <= Sidebar.CompletedTasks(Some(tasks))
  {
    FilterWeaker(tasks);
  }

  /**
   * A value sent on create comes back complete exactly when it is `'yes'` or
   * `true`. So `1`, `'Yes'` and `'YES'`, which the client itself calls
   * complete, come back pending, and so does `'no'`.
   */
  lemma CreateRoundTrip(id: TaskController.TaskId, caller: nat, body: TaskController.NewTask, now: int)
    ensures Layout.IsDone(Wire.View(TaskController.Build(id, caller, body, now)))
            <==> body.completed in {Str("yes"), Bool(true)}
    ensures body.completed in {Num(1), Str("Yes"), Str("YES")} ==>
              Layout.IsCompleted(body.completed) && !Layout.IsDone(Wire.View(TaskController.Build(id, caller, body, now)))
    ensures body.completed == Str("no") ==> !Layout.IsDone(Wire.View(TaskController.Build(id, caller, body, now)))
  {
    assert Text.Lower("Yes") == "yes" && Text.Lower("YES") == "yes";
    Wire.ClientReadsStoredFlag(TaskController.Build(id, caller, body, now));
  }

  /**
   * A `completed` sent on update comes back complete exactly when it is
   * `'Yes'` or `true`: the `'yes'` the client calls complete reopens the task.
   */
  lemma UpdateRoundTrip(t: TaskController.Task, p: TaskController.TaskPatch)
    ensures p.completed.Some? ==>
              (Layout.IsDone(Wire.View(TaskController.ApplyPatch(t, p))) <==> p.completed.value in {Str("Yes"), Bool(true)})
    ensures p.completed == Some(Str("yes")) ==>
              Layout.IsCompleted(Str("yes")) && !Layout.IsDone(Wire.View(TaskController.ApplyPatch(t, p)))
    ensures p.completed.None? ==>
              Layout.IsDone(Wire.View(TaskController.ApplyPatch(t, p))) == Layout.IsDone(Wire.View(t))
  {
    Wire.ClientReadsStoredFlag(TaskController.ApplyPatch(t, p));
    Wire.ClientReadsStoredFlag(t);
  }

  /** On a list the server sends, the sidebar and the statistics panel count the same completed tasks. */
  lemma ServerListsCountAlike(ts: seq<TaskController.Task>)
    ensures Sidebar.CompletedTasks(Some(Wire.Views(ts))) == Layout.ComputeStats(Wire.Views(ts)).completedTasks
  {
    var vs := Wire.Views(ts);
    forall i | 0 <= i < |vs| ensures Layout.IsDone(vs[i]) == Sidebar.IsTruthy(vs[i]) {
      Wire.ClientReadsStoredFlag(ts[i]);
    }
    FilterSame(vs, Layout.IsDone, Sidebar.IsTruthy);
  }

  /** The sidebar's `totalTasks`, the layout's `totalCount` and the dashboard's `total` are one number; no list gives 0. */
  lemma TotalsAgree(tasks: seq<TaskView>)
    ensures Sidebar.TotalTasks(Some(tasks)) == Layout.ComputeStats(tasks).totalCount
    ensures Sidebar.TotalTasks(Some(tasks)) == Dashboard.ComputeStats(tasks).total
    ensures Sidebar.TotalTasks(None) == 0 && Sidebar.CompletedTasks(None) == 0 && Sidebar.Productivity(None) == 0
  {
  }
}
