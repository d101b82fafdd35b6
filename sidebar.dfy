/** The sidebar's figures: task totals, productivity, and the user's display name and initial. */
module Sidebar {
  import opened Wrappers
  import opened JsValue
  import opened Text
  import opened Seqs
  import opened Percent
  import opened ClientTask

  /** The `user` prop, as far as the sidebar reads it. */
  datatype SidebarUser = SidebarUser(name: Option<string>)

  /** The sidebar's completion test: plain truthiness of `completed`. */
  predicate IsTruthy(t: TaskView) {
    Truthy(t.completed)
  }

  /** `tasks?.length || 0`. */
  function TotalTasks(tasks: Option<seq<TaskView>>): (n: nat)
    ensures tasks.None? ==> n == 0
    ensures tasks.Some? ==> n == |tasks.value|
  {
    if tasks.Some? then |tasks.value| else 0
  }

  /** `tasks?.filter(t => t.completed).length || 0`. */
  function CompletedTasks(tasks: Option<seq<TaskView>>): (n: nat)
    ensures n <= TotalTasks(tasks)
  {
    if tasks.Some? then |Filter(tasks.value, IsTruthy)| else 0
  }

  /** `totalTasks > 0 ? Math.round(completedTasks / totalTasks * 100) : 0`. */
  function Productivity(tasks: Option<seq<TaskView>>): (p: nat)
    ensures p <= 100
    ensures TotalTasks(tasks) == 0 ==> p == 0
    ensures TotalTasks(tasks) > 0 && CompletedTasks(tasks) == TotalTasks(tasks) ==> p == 100
  {
    PercentFacts(CompletedTasks(tasks), TotalTasks(tasks));
    RoundPercent(CompletedTasks(tasks), TotalTasks(tasks))
  }

  /** A task whose `completed` is `'no'` counts as done here; `false`, `0` and `''` do not. */
  lemma TruthinessExamples(t: TaskView)
    ensures IsTruthy(t.(completed := Str("no")))
    ensures !IsTruthy(t.(completed := Bool(false)))
    ensures !IsTruthy(t.(completed := Num(0)))
    ensures !IsTruthy(t.(completed := Str("")))
  {
  }

  /** `user?.name || 'User'`. */
  function Username(user: Option<SidebarUser>): (name: string)
    ensures name != ""
    ensures user.Some? && user.value.name.Some? && user.value.name.value != "" ==> name == user.value.name.value
    ensures user.None? || user.value.name.None? || user.value.name.value == "" ==> name == "User"
  {
    if user.Some? && user.value.name.Some? && user.value.name.value != "" then user.value.name.value else "User"
  }

  /** `username.charAt(0).toUpperCase()`: the uppercased first letter of a non-empty name, else `U` for `User`. */
  function Initial(user: Option<SidebarUser>): (initial: string)
    ensures user.Some? && user.value.name.Some? && user.value.name.value != "" ==>
              initial == [UpperChar(user.value.name.value[0])]
    ensures user.None? || user.value.name.None? || user.value.name.value == "" ==> initial == "U"
  {
    [UpperChar(Username(user)[0])]
  }

  lemma AnonymousInitial()
    ensures Initial(None) == "U"
  {
  }
}
