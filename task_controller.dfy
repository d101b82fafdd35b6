/**
 * The task routes over one store of task records. Every route runs behind the
 * authentication middleware, so each handler receives the caller's id already
 * verified. `_id` values come from a counter and `createdAt` is supplied by the
 * store at insertion (the `now` parameter).
 */
module TaskController {
  import opened Wrappers
  import opened JsValue
  import opened UserModel
  import opened Http

  type TaskId = nat

  datatype Task = Task(
    id: TaskId,
    title: Value,
    description: Value,
    priority: Value,
    dueDate: Value,
    completed: bool,
    owner: UserId,
    createdAt: int)

  /** The body of a create request; whatever `owner` it carries is not read. */
  datatype NewTask = NewTask(title: Value, description: Value, priority: Value, dueDate: Value,
                             completed: Value, owner: Value)

  /** The body of an update request: each field is either absent or supplied. */
  datatype TaskPatch = TaskPatch(
    title: Option<Value>,
    description: Option<Value>,
    priority: Option<Value>,
    dueDate: Option<Value>,
    completed: Option<Value>,
    owner: Option<UserId>)

  /** `completed === 'yes' || completed === true`, the rule on create. */
  predicate CreateCompleted(v: Value) {
    v == Str("yes") || v == Bool(true)
  }

  /** `data.completed === 'Yes' || data.completed === true`, the rule on update. */
  predicate UpdateCompleted(v: Value) {
    v == Str("Yes") || v == Bool(true)
  }

  /** The record `new Task({...})` builds for `caller`. */
  function Build(id: TaskId, caller: UserId, body: NewTask, now: int): Task {
    Task(id, body.title, body.description, body.priority, body.dueDate,
         CreateCompleted(body.completed), caller, now)
  }

  /** What `findOneAndUpdate` makes of a stored task: every supplied field replaces the stored one. */
  function ApplyPatch(t: Task, p: TaskPatch): Task {
    Task(t.id,
         if p.title.Some? then p.title.value else t.title,
         if p.description.Some? then p.description.value else t.description,
         if p.priority.Some? then p.priority.value else t.priority,
         if p.dueDate.Some? then p.dueDate.value else t.dueDate,
         if p.completed.Some? then UpdateCompleted(p.completed.value) else t.completed,
         if p.owner.Some? then p.owner.value else t.owner,
         t.createdAt)
  }

  /** A list ordered by `createdAt`, newest first. */
  predicate NewestFirst(s: seq<Task>) {
    forall i, j :: 0 <= i < j < |s| ==> s[i].createdAt >= s[j].createdAt
  }

  /** Where `t` goes in a newest-first list: after every strictly newer task. */
  function InsertPos(s: seq<Task>, t: Task): (k: nat)
    ensures k <= |s|
    ensures forall i :: 0 <= i < k ==> s[i].createdAt > t.createdAt
    ensures k < |s| ==> t.createdAt >= s[k].createdAt
  {
    if s == [] || t.createdAt >= s[0].createdAt then 0 else 1 + InsertPos(s[1..], t)
  }

  /** Puts `t` into a newest-first list, keeping it newest first. */
  function Insert(s: seq<Task>, t: Task): seq<Task> {
    s[..InsertPos(s, t)] + [t] + s[InsertPos(s, t)..]
  }

  lemma InsertKeepsOrder(s: seq<Task>, t: Task)
    requires NewestFirst(s)
    ensures NewestFirst(Insert(s, t))
  {
    var k := InsertPos(s, t);
    var r := Insert(s, t);
    forall i, j | 0 <= i < j < |r| ensures r[i].createdAt >= r[j].createdAt {
      if j < k {
      } else if j == k {
      } else if i < k {
      } else if i == k {
        assert r[j] == s[j - 1];
        assert k < |s| && t.createdAt >= s[k].createdAt;
      } else {
        assert r[i] == s[i - 1] && r[j] == s[j - 1];
      }
    }
  }

  /** The elements of `Insert(s, t)` are those of `s`, with `t` at position `InsertPos(s, t)`. */
  lemma InsertElements(s: seq<Task>, t: Task)
    ensures |Insert(s, t)| == |s| + 1
    ensures Insert(s, t)[InsertPos(s, t)] == t
    ensures forall i :: 0 <= i < InsertPos(s, t) ==> Insert(s, t)[i] == s[i]
    ensures forall i :: InsertPos(s, t) < i <= |s| ==> Insert(s, t)[i] == s[i - 1]
  {
  }

  /** Every element of `found` is a stored task of `caller` that is no longer pending. */
  ghost predicate FoundOwned(tasks: map<TaskId, Task>, caller: UserId, found: seq<Task>, pending: set<TaskId>) {
    forall i :: 0 <= i < |found| ==>
      found[i].id in tasks && tasks[found[i].id] == found[i] && found[i].owner == caller
      && found[i].id !in pending
  }

  /** Every task of `caller` is pending or already in `found`. */
  ghost predicate FoundCovers(tasks: map<TaskId, Task>, caller: UserId, found: seq<Task>, pending: set<TaskId>) {
    forall id :: id in tasks && tasks[id].owner == caller ==>
      id in pending || exists i :: 0 <= i < |found| && found[i].id == id
  }

  /** No task appears in `found` twice. */
  ghost predicate FoundOnce(found: seq<Task>) {
    forall i, j :: 0 <= i < j < |found| ==> found[i].id != found[j].id
  }

  /**
   * Midway through listing `caller`'s tasks: `found` holds, newest first and
   * once each, exactly the caller's tasks that are no longer `pending`.
   */
  ghost predicate Listing(tasks: map<TaskId, Task>, caller: UserId, found: seq<Task>, pending: set<TaskId>) {
    && pending <= tasks.Keys
    && (forall id :: id in pending ==> tasks[id].owner == caller)
    && NewestFirst(found)
    && FoundOwned(tasks, caller, found, pending)
    && FoundCovers(tasks, caller, found, pending)
    && FoundOnce(found)
  }

  lemma OwnedStep(tasks: map<TaskId, Task>, caller: UserId, found: seq<Task>, pending: set<TaskId>, id: TaskId)
    requires FoundOwned(tasks, caller, found, pending) && id in pending && id in tasks
    requires tasks[id].id == id && tasks[id].owner == caller
    ensures FoundOwned(tasks, caller, Insert(found, tasks[id]), pending - {id})
  {
    InsertElements(found, tasks[id]);
  }

  lemma CoversStep(tasks: map<TaskId, Task>, caller: UserId, found: seq<Task>, pending: set<TaskId>, id: TaskId)
    requires FoundCovers(tasks, caller, found, pending) && id in tasks && tasks[id].id == id
    ensures FoundCovers(tasks, caller, Insert(found, tasks[id]), pending - {id})
  {
    var t := tasks[id];
    var k := InsertPos(found, t);
    var next := Insert(found, t);
    InsertElements(found, t);
    forall other | other in tasks && tasks[other].owner == caller && other !in pending - {id}
      ensures exists i :: 0 <= i < |next| && next[i].id == other
    {
      if other == id {
        assert next[k].id == other;
      } else {
        var i :| 0 <= i < |found| && found[i].id == other;
        if i < k {
          assert next[i].id == other;
        } else {
          assert next[i + 1].id == other;
        }
      }
    }
  }

  lemma OnceStep(found: seq<Task>, t: Task)
    requires FoundOnce(found) && forall i :: 0 <= i < |found| ==> found[i].id != t.id
    ensures FoundOnce(Insert(found, t))
  {
    InsertElements(found, t);
    var k := InsertPos(found, t);
    var next := Insert(found, t);
    forall i, j | 0 <= i < j < |next| ensures next[i].id != next[j].id {
      if j < k {
      } else if j == k {
      } else if i < k {
        assert next[j] == found[j - 1];
      } else if i == k {
        assert next[j] == found[j - 1];
      } else {
        assert next[i] == found[i - 1] && next[j] == found[j - 1];
      }
    }
  }

  lemma ListingStep(tasks: map<TaskId, Task>, caller: UserId, found: seq<Task>, pending: set<TaskId>, id: TaskId)
    requires Listing(tasks, caller, found, pending) && id in pending
    requires forall k :: k in tasks ==> tasks[k].id == k
    ensures Listing(tasks, caller, Insert(found, tasks[id]), pending - {id})
  {
    InsertKeepsOrder(found, tasks[id]);
    OwnedStep(tasks, caller, found, pending, id);
    CoversStep(tasks, caller, found, pending, id);
    OnceStep(found, tasks[id]);
  }

  class TaskStore {
    /** The task collection, keyed by `_id`. */
    var tasks: map<TaskId, Task>
    /** The id the next created task receives. */
    var nextId: TaskId

    ghost predicate Valid()
      reads this
    {
      forall id :: id in tasks ==> tasks[id].id == id && id < nextId
    }

    constructor ()
      ensures Valid() && tasks == map[]
    {
      tasks := map[];
      nextId := 0;
    }

    /** `createTask`: the owner is the caller, whatever the body holds. */
    method Create(caller: UserId, body: NewTask, now: int) returns (r: Reply<Task>)
      requires Valid()
      modifies this
      ensures Valid()
      ensures old(nextId) !in old(tasks)
      ensures tasks == old(tasks)[old(nextId) := Build(old(nextId), caller, body, now)]
      ensures nextId == old(nextId) + 1
      ensures r == Ok(201, Build(old(nextId), caller, body, now))
    {
      var task := Build(nextId, caller, body, now);
      tasks := tasks[nextId := task];
      nextId := nextId + 1;
      r := Ok(201, task);
    }

    /**
     * `getTasks`: `find({owner})` sorted by `createdAt` descending. Every
     * caller's task appears exactly once and nothing else appears.
     */
    method List(caller: UserId) returns (r: Reply<seq<Task>>)
      requires Valid()
      ensures r.Ok? && r.status == 200
      ensures NewestFirst(r.value)
      ensures forall i :: 0 <= i < |r.value| ==>
                r.value[i].id in tasks && tasks[r.value[i].id] == r.value[i] && r.value[i].owner == caller
      ensures forall id :: id in tasks && tasks[id].owner == caller ==>
                exists i :: 0 <= i < |r.value| && r.value[i].id == id
      ensures forall i, j :: 0 <= i < j < |r.value| ==> r.value[i].id != r.value[j].id
    {
      var pending := set id | id in tasks && tasks[id].owner == caller;
      var found: seq<Task> := [];
      while pending != {}
        invariant Listing(tasks, caller, found, pending)
        decreases pending
      {
        var id :| id in pending;
        ListingStep(tasks, caller, found, pending, id);
        found := Insert(found, tasks[id]);
        pending := pending - {id};
      }
      r := Ok(200, found);
    }

    /** `getTaskById`: a task owned by someone else gets the same reply as a missing one. */
    method Get(caller: UserId, id: TaskId) returns (r: Reply<Task>)
      requires Valid()
      ensures id in tasks && tasks[id].owner == caller ==> r == Ok(200, tasks[id])
      ensures !(id in tasks && tasks[id].owner == caller) ==> r == Fail(404, "Task Not Found")
    {
      if id !in tasks || tasks[id].owner != caller {
        return Fail(404, "Task Not Found");
      }
      r := Ok(200, tasks[id]);
    }

    /** `updateTask`: only the task matching both id and caller changes. */
    method Update(caller: UserId, id: TaskId, patch: TaskPatch) returns (r: Reply<Task>)
      requires Valid()
      modifies this
      ensures Valid() && nextId == old(nextId)
      ensures id in old(tasks) && old(tasks)[id].owner == caller ==>
                && tasks == old(tasks)[id := ApplyPatch(old(tasks)[id], patch)]
                && r == Ok(200, ApplyPatch(old(tasks)[id], patch))
      ensures !(id in old(tasks) && old(tasks)[id].owner == caller) ==>
                tasks == old(tasks) && r == Fail(400, "Task Not Found Or Not Yours")
    {
      if id !in tasks || tasks[id].owner != caller {
        return Fail(400, "Task Not Found Or Not Yours");
      }
      var updated := ApplyPatch(tasks[id], patch);
      tasks := tasks[id := updated];
      r := Ok(200, updated);
    }

    /** `deleteTask`: removes exactly the task matching both id and caller. */
    method Delete(caller: UserId, id: TaskId) returns (r: Reply<string>)
      requires Valid()
      modifies this
      ensures Valid() && nextId == old(nextId)
      ensures id in old(tasks) && old(tasks)[id].owner == caller ==>
                tasks == old(tasks) - {id} && r == Ok(200, "task Deleted")
      ensures !(id in old(tasks) && old(tasks)[id].owner == caller) ==>
                tasks == old(tasks) && r == Fail(404, "tasks not found or not yours")
    {
      if id !in tasks || tasks[id].owner != caller {
        return Fail(404, "tasks not found or not yours");
      }
      tasks := tasks - {id};
      r := Ok(200, "task Deleted");
    }
  }

  /** The stored owner is the caller, whatever `owner` the body carries. */
  lemma CreateIgnoresBodyOwner(id: TaskId, caller: UserId, body: NewTask, now: int, forged: Value)
    ensures Build(id, caller, body, now).owner == caller
    ensures Build(id, caller, body, now) == Build(id, caller, body.(owner := forged), now)
  {
  }

  /** A patch that supplies no field leaves the task unchanged. */
  lemma EmptyPatchIsIdentity(t: Task)
    ensures ApplyPatch(t, TaskPatch(None, None, None, None, None, None)) == t
  {
  }

  /** Applying the same patch twice is applying it once. */
  lemma PatchIdempotent(t: Task, p: TaskPatch)
    ensures ApplyPatch(ApplyPatch(t, p), p) == ApplyPatch(t, p)
  {
  }

  /**
   * On update a supplied `completed` is `true` only for `'Yes'` or `true`, so
   * the `'yes'` that creates a completed task reopens it; an absent `completed`
   * keeps the stored flag. Id and creation time never change.
   */
  lemma UpdateCompletion(t: Task, p: TaskPatch)
    ensures p.completed.Some? ==> (ApplyPatch(t, p).completed <==> p.completed.value in {Str("Yes"), Bool(true)})
    ensures p.completed == Some(Str("yes")) ==> !ApplyPatch(t, p).completed
    ensures p.completed.None? ==> ApplyPatch(t, p).completed == t.completed
    ensures ApplyPatch(t, p).id == t.id && ApplyPatch(t, p).createdAt == t.createdAt
  {
  }

  /** `caller`'s filter `{_id: id, owner: caller}` matches a stored task. */
  predicate Owns(tasks: map<TaskId, Task>, caller: UserId, id: TaskId) {
    id in tasks && tasks[id].owner == caller
  }

  /**
   * The owner is copied from the body like any other field. So once the owner
   * `a` sends an update naming `b`, the task belongs to `b` alone: `a`'s reads,
   * updates and deletes of it no longer match, and `b`'s do.
   */
  lemma UpdateCanTransferOwner(tasks: map<TaskId, Task>, a: UserId, b: UserId, id: TaskId, p: TaskPatch)
    requires Owns(tasks, a, id) && p.owner == Some(b) && a != b
    ensures var after := tasks[id := ApplyPatch(tasks[id], p)];
            !Owns(after, a, id) && Owns(after, b, id) && after[id].id == tasks[id].id
  {
  }
}
