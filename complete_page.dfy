/**
 * The completed-tasks page: the tasks whose completion value is listed in
 * `[true, 1, 'yes']` (strings lowercased first), sorted by the chosen key, and
 * the count shown above them. `Array.prototype.sort` is modelled as a stable
 * insertion sort driven by the page's comparator.
 */
module CompletePage {
  import opened Wrappers
  import opened JsValue
  import opened Text
  import opened Seqs
  import opened ClientTask

  /** `typeof v === 'string' ? v.toLowerCase() : v`. */
  function Normalised(v: Value): Value {
    if v.Str? then Str(Lower(v.s)) else v
  }

  predicate IsListed(v: Value) {
    Normalised(v) in [Bool(true), Num(1), Str("yes")]
  }

  predicate IsKept(t: TaskView) {
    IsListed(t.completed)
  }

  /** `{ high: 3, medium: 2, low: 1 }[p?.toLowerCase()]`; any other key is `undefined`. */
  function Rank(p: Option<string>): Option<int> {
    if p.None? then None
    else if Lower(p.value) == "high" then Some(3)
    else if Lower(p.value) == "medium" then Some(2)
    else if Lower(p.value) == "low" then Some(1)
    else None
  }

  /**
   * The comparator. A difference with an `undefined` rank is `NaN`, which the
   * sort reads as 0; an unknown `sortBy` returns 0 for every pair.
   */
  function Compare(sortBy: string, a: TaskView, b: TaskView): int {
    if sortBy == "newest" then b.createdAt - a.createdAt
    else if sortBy == "oldest" then a.createdAt - b.createdAt
    else if sortBy == "priority" then
      (if Rank(a.priority).Some? && Rank(b.priority).Some? then Rank(b.priority).value - Rank(a.priority).value else 0)
    else 0
  }

  /** Inserts `x` after the sorted `s`, moving it left past every element the comparator puts after it. */
  function InsertSorted(sortBy: string, s: seq<TaskView>, x: TaskView): (r: seq<TaskView>)
    ensures multiset(r) == multiset(s) + multiset{x}
  {
    if s == [] then [x]
    else if Compare(sortBy, s[|s| - 1], x) > 0 then
      assert s == s[..|s| - 1] + [s[|s| - 1]];
      InsertSorted(sortBy, s[..|s| - 1], x) + [s[|s| - 1]]
    else s + [x]
  }

  /** Sorts `s` by inserting its elements one after another. */
  function Sort(sortBy: string, s: seq<TaskView>): (r: seq<TaskView>)
    ensures multiset(r) == multiset(s)
  {
    if s == [] then []
    else
      assert s == s[..|s| - 1] + [s[|s| - 1]];
      InsertSorted(sortBy, Sort(sortBy, s[..|s| - 1]), s[|s| - 1])
  }

  /** `sortedCompletedTasks`. */
  function SortedCompletedTasks(tasks: seq<TaskView>, sortBy: string): seq<TaskView> {
    Sort(sortBy, Filter(tasks, IsKept))
  }

  /** The number the comparator orders by: `Compare(a, b)` is `Key(a) - Key(b)` where the comparator is consistent. */
  function Key(sortBy: string, t: TaskView): int {
    if sortBy == "newest" then -t.createdAt
    else if sortBy == "oldest" then t.createdAt
    else if Rank(t.priority).Some? then -Rank(t.priority).value
    else 0
  }

  /** The comparator is a difference of keys: always for the dates, and for priorities when both ranks exist. */
  predicate Ranked(sortBy: string, t: TaskView) {
    sortBy == "newest" || sortBy == "oldest" || (sortBy == "priority" && Rank(t.priority).Some?)
  }

  predicate SortedByKey(sortBy: string, s: seq<TaskView>) {
    forall i, j :: 0 <= i < j < |s| ==> Key(sortBy, s[i]) <= Key(sortBy, s[j])
  }

  /** Inserting into a sequence whose keys are all at most `k` an element whose key is at most `k` keeps that bound. */
  lemma {:induction false} InsertSortedBound(sortBy: string, s: seq<TaskView>, x: TaskView, k: int)
    requires forall i :: 0 <= i < |s| ==> Key(sortBy, s[i]) <= k
    requires Key(sortBy, x) <= k
    ensures forall i :: 0 <= i < |InsertSorted(sortBy, s, x)| ==> Key(sortBy, InsertSorted(sortBy, s, x)[i]) <= k
  {
    if s != [] && Compare(sortBy, s[|s| - 1], x) > 0 {
      InsertSortedBound(sortBy, s[..|s| - 1], x, k);
    }
  }

  /** Appending an element whose key bounds every key of a sorted sequence keeps it sorted. */
  lemma AppendSorted(sortBy: string, front: seq<TaskView>, last: TaskView)
    requires SortedByKey(sortBy, front)
    requires forall i :: 0 <= i < |front| ==> Key(sortBy, front[i]) <= Key(sortBy, last)
    ensures SortedByKey(sortBy, front + [last])
  {
  }

  lemma {:induction false} InsertSortedKeepsOrder(sortBy: string, s: seq<TaskView>, x: TaskView)
    requires SortedByKey(sortBy, s)
    requires Ranked(sortBy, x) && forall i :: 0 <= i < |s| ==> Ranked(sortBy, s[i])
    ensures SortedByKey(sortBy, InsertSorted(sortBy, s, x))
  {
    if s != [] {
      var last := s[|s| - 1];
      var init := s[..|s| - 1];
      if Compare(sortBy, last, x) > 0 {
        assert Key(sortBy, last) > Key(sortBy, x);
        assert forall i :: 0 <= i < |init| ==> init[i] == s[i];
        InsertSortedKeepsOrder(sortBy, init, x);
        InsertSortedBound(sortBy, init, x, Key(sortBy, last));
        AppendSorted(sortBy, InsertSorted(sortBy, init, x), last);
      } else {
        assert Key(sortBy, last) <= Key(sortBy, x);
      }
    }
  }

  lemma {:induction false} SortOrders(sortBy: string, s: seq<TaskView>)
    requires forall i :: 0 <= i < |s| ==> Ranked(sortBy, s[i])
    ensures SortedByKey(sortBy, Sort(sortBy, s))
  {
    if s != [] {
      var init := s[..|s| - 1];
      SortOrders(sortBy, init);
      var sorted := Sort(sortBy, init);
      forall i | 0 <= i < |sorted| ensures Ranked(sortBy, sorted[i]) {
        assert sorted[i] in multiset(sorted);
        var m :| 0 <= m < |init| && init[m] == sorted[i];
      }
      InsertSortedKeepsOrder(sortBy, sorted, s[|s| - 1]);
    }
  }

  /** A comparator that is 0 for every pair leaves the order as it is. */
  lemma {:induction false} SortUnknownKeepsOrder(sortBy: string, s: seq<TaskView>)
    requires sortBy !in {"newest", "oldest", "priority"}
    ensures Sort(sortBy, s) == s
  {
    if s != [] {
      SortUnknownKeepsOrder(sortBy, s[..|s| - 1]);
      assert s[..|s| - 1] + [s[|s| - 1]] == s;
    }
  }

  /** The page shows the kept tasks, each as often as in the list, and nothing else. */
  lemma SortedIsPermutationOfKept(tasks: seq<TaskView>, sortBy: string)
    ensures multiset(SortedCompletedTasks(tasks, sortBy)) == multiset(Filter(tasks, IsKept))
    ensures forall t :: t in SortedCompletedTasks(tasks, sortBy) <==> t in tasks && IsKept(t)
  {
    var r := SortedCompletedTasks(tasks, sortBy);
    forall t ensures t in r <==> t in Filter(tasks, IsKept) {
      assert t in r <==> t in multiset(r);
    }
  }

  /** `'newest'` gives non-increasing creation times. */
  lemma NewestOrder(tasks: seq<TaskView>)
    ensures var r := SortedCompletedTasks(tasks, "newest");
            forall i, j :: 0 <= i < j < |r| ==> r[i].createdAt >= r[j].createdAt
  {
    SortOrders("newest", Filter(tasks, IsKept));
  }

  /** `'oldest'` gives non-decreasing creation times. */
  lemma OldestOrder(tasks: seq<TaskView>)
    ensures var r := SortedCompletedTasks(tasks, "oldest");
            forall i, j :: 0 <= i < j < |r| ==> r[i].createdAt <= r[j].createdAt
  {
    SortOrders("oldest", Filter(tasks, IsKept));
  }

  /** `'priority'` puts high before medium before low, when every kept task has one of those priorities. */
  lemma PriorityOrder(tasks: seq<TaskView>)
    requires forall i :: 0 <= i < |tasks| ==> Rank(tasks[i].priority).Some?
    ensures var r := SortedCompletedTasks(tasks, "priority");
            forall i, j :: 0 <= i < j < |r| ==>
              Rank(r[i].priority).Some? && Rank(r[j].priority).Some? &&
              Rank(r[i].priority).value >= Rank(r[j].priority).value
  {
    var kept := Filter(tasks, IsKept);
    forall i | 0 <= i < |kept| ensures Ranked("priority", kept[i]) {
      assert kept[i] in tasks;
    }
    SortOrders("priority", kept);
    SortedIsPermutationOfKept(tasks, "priority");
    var r := SortedCompletedTasks(tasks, "priority");
    forall i | 0 <= i < |r| ensures Rank(r[i].priority).Some? {
      assert r[i] in r;
    }
  }

  /** Any other `sortBy` shows the kept tasks in list order. */
  lemma UnknownSortKeepsFilterOrder(tasks: seq<TaskView>, sortBy: string)
    requires sortBy !in {"newest", "oldest", "priority"}
    ensures SortedCompletedTasks(tasks, sortBy) == Filter(tasks, IsKept)
  {
    SortUnknownKeepsOrder(sortBy, Filter(tasks, IsKept));
  }

  /** `{n} task{n !== 1 && 's'}`. */
  function CountLabel(n: nat): (text: string)
    ensures |text| > 0 && (text[|text| - 1] == 's' <==> n != 1)
  {
    Digits(n) + " task" + (if n != 1 then "s" else "")
  }

  lemma LabelExamples()
    ensures CountLabel(0) == "0 tasks" && CountLabel(1) == "1 task" && CountLabel(2) == "2 tasks"
  {
  }
}
