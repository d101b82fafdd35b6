/**
 * The dashboard: priority and completion counts over the task list, and the
 * list filter chosen by the user. Dates are millisecond timestamps; whether two
 * timestamps fall on the same local calendar day (`toDateString` equality) is
 * the opaque `sameDay`.
 */
module Dashboard {
  import opened Wrappers
  import opened Text
  import opened Seqs
  import opened ClientTask
  import Layout

  /** `task.priority?.toLowerCase() === level`. */
  predicate PriorityIs(t: TaskView, level: string) {
    t.priority.Some? && Lower(t.priority.value) == level
  }

  predicate IsLow(t: TaskView) { PriorityIs(t, "low") }
  predicate IsMedium(t: TaskView) { PriorityIs(t, "medium") }
  predicate IsHigh(t: TaskView) { PriorityIs(t, "high") }

  datatype Stats = Stats(total: nat, lowPriority: nat, mediumPriority: nat, highPriority: nat, completed: nat)

  /** The `stats` memo. A task without a priority, or with another one, is in none of the three counts. */
  function ComputeStats(tasks: seq<TaskView>): (s: Stats)
    ensures s.total == |tasks|
    ensures s.lowPriority + s.mediumPriority + s.highPriority <= s.total
    ensures s.completed <= s.total
    ensures s.completed == Layout.ComputeStats(tasks).completedTasks
  {
    FilterDisjoint3(tasks, IsLow, IsMedium, IsHigh);
    Stats(|tasks|, |Filter(tasks, IsLow)|, |Filter(tasks, IsMedium)|, |Filter(tasks, IsHigh)|,
          |Filter(tasks, Layout.IsDone)|)
  }

  /** An empty list has every count zero. */
  lemma EmptyStats()
    ensures ComputeStats([]) == Stats(0, 0, 0, 0, 0)
  {
  }

  /**
   * Each count counts exactly the tasks its test accepts: one more task raises
   * the total by one, and each priority count and the completed count by one
   * exactly when that task's lowercased priority is that level, or it is complete.
   */
  lemma StatsStep(tasks: seq<TaskView>, t: TaskView)
    ensures ComputeStats(tasks + [t]).total == ComputeStats(tasks).total + 1
    ensures ComputeStats(tasks + [t]).lowPriority == ComputeStats(tasks).lowPriority + (if PriorityIs(t, "low") then 1 else 0)
    ensures ComputeStats(tasks + [t]).mediumPriority == ComputeStats(tasks).mediumPriority + (if PriorityIs(t, "medium") then 1 else 0)
    ensures ComputeStats(tasks + [t]).highPriority == ComputeStats(tasks).highPriority + (if PriorityIs(t, "high") then 1 else 0)
    ensures ComputeStats(tasks + [t]).completed == ComputeStats(tasks).completed + (if Layout.IsDone(t) then 1 else 0)
  {
    FilterAppend(tasks, t, IsLow);
    FilterAppend(tasks, t, IsMedium);
    FilterAppend(tasks, t, IsHigh);
    FilterAppend(tasks, t, Layout.IsDone);
  }

  /** The match ignores case: `High`, `HIGH` and `high` all count as high. */
  lemma PriorityIgnoresCase(tasks: seq<TaskView>, t: TaskView)
    requires t.priority in {Some("High"), Some("HIGH"), Some("high")}
    ensures ComputeStats(tasks + [t]).highPriority == ComputeStats(tasks).highPriority + 1
  {
    assert Lower("High") == "high" && Lower("HIGH") == "high";
    StatsStep(tasks, t);
  }

  /** A task without a priority, in any list, is in none of the three priority counts. */
  lemma NoPriorityCountsNothing(tasks: seq<TaskView>, t: TaskView)
    requires t.priority.None?
    ensures ComputeStats(tasks + [t]).lowPriority == ComputeStats(tasks).lowPriority
    ensures ComputeStats(tasks + [t]).mediumPriority == ComputeStats(tasks).mediumPriority
    ensures ComputeStats(tasks + [t]).highPriority == ComputeStats(tasks).highPriority
  {
    StatsStep(tasks, t);
  }

  /** `nextWeek` is seven days after `today`. */
  const WEEK_MS: int := 7 * 24 * 60 * 60 * 1000

  /** The `switch (filter)` of `filteredTasks`, for one task. It reads `DueDate`, not `dueDate`. */
  predicate Keep(filter: string, t: TaskView, now: int, sameDay: (int, int) -> bool) {
    if filter == "today" then t.DueDate.Some? && sameDay(t.DueDate.value, now)
    else if filter == "week" then t.DueDate.Some? && now <= t.DueDate.value <= now + WEEK_MS
    else if filter == "high" || filter == "medium" || filter == "low" then PriorityIs(t, filter)
    else true
  }

  /** `filteredTasks`: the tasks the filter keeps, in their original order. */
  function FilteredTasks(tasks: seq<TaskView>, filter: string, now: int, sameDay: (int, int) -> bool): (r: seq<TaskView>)
    ensures IsSubsequence(r, tasks)
    ensures forall t :: t in r <==> t in tasks && Keep(filter, t, now, sameDay)
    ensures forall t :: multiset(r)[t] == if Keep(filter, t, now, sameDay) then multiset(tasks)[t] else 0
  {
    FilterIsSubsequence(tasks, t => Keep(filter, t, now, sameDay));
    FilterMultiset(tasks, t => Keep(filter, t, now, sameDay));
    Filter(tasks, t => Keep(filter, t, now, sameDay))
  }

  /** `'high'`, `'medium'` and `'low'` keep exactly the tasks whose lowercased priority is the filter. */
  lemma PriorityFilterExact(tasks: seq<TaskView>, filter: string, now: int, sameDay: (int, int) -> bool)
    requires filter in {"high", "medium", "low"}
    ensures forall t :: t in FilteredTasks(tasks, filter, now, sameDay) <==>
              t in tasks && t.priority.Some? && Lower(t.priority.value) == filter
  {
  }

  /** `'all'`, and any value the switch does not name, keep the list as it is. */
  lemma OtherFilterKeepsAll(tasks: seq<TaskView>, filter: string, now: int, sameDay: (int, int) -> bool)
    requires filter !in {"today", "week", "high", "medium", "low"}
    ensures FilteredTasks(tasks, filter, now, sameDay) == tasks
  {
    FilterAll(tasks, t => Keep(filter, t, now, sameDay));
  }

  /** `'week'` keeps the tasks whose `DueDate` lies between now and seven days from now. */
  lemma WeekFilterWindow(tasks: seq<TaskView>, now: int, sameDay: (int, int) -> bool)
    ensures forall t :: t in FilteredTasks(tasks, "week", now, sameDay) <==>
              t in tasks && t.DueDate.Some? && now <= t.DueDate.value <= now + WEEK_MS
  {
  }

  /**
   * A task that has only `dueDate` is dropped by both date filters, however
   * close its due date is.
   */
  lemma DateFiltersIgnoreDueDate(tasks: seq<TaskView>, now: int, sameDay: (int, int) -> bool)
    requires forall i :: 0 <= i < |tasks| ==> tasks[i].DueDate.None?
    ensures FilteredTasks(tasks, "week", now, sameDay) == []
    ensures FilteredTasks(tasks, "today", now, sameDay) == []
  {
    FilterNone(tasks, t => Keep("week", t, now, sameDay));
    FilterNone(tasks, t => Keep("today", t, now, sameDay));
  }
}
