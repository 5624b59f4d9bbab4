/** The task store of `contexts/TaskContext.js`: the signed-in user's task records,
    mirrored in a key-value storage under `"tasks_" + userId`. Timestamps are whole
    milliseconds; the clock, the generated id and the outcome of each storage call
    are passed in by the caller. */
module Tasks {
  import opened Wrappers
  import opened Sequences

  // PRIORITY_LEVELS
  const LOW: string := "low"
  const MEDIUM: string := "medium"
  const HIGH: string := "high"

  // TASK_STATUS
  const PENDING: string := "pending"
  const EXPIRED: string := "expired"
  const COMPLETED: string := "completed"

  // What the store records in its `error` field when an operation fails.
  const LOAD_FAILED: string := "Failed to load tasks"
  const SAVE_FAILED: string := "Failed to save tasks"
  const ADD_FAILED: string := "Failed to add task"
  const UPDATE_FAILED: string := "Failed to update task"
  const COMPLETE_FAILED: string := "Failed to complete task"
  const CLEAR_FAILED: string := "Failed to clear tasks"

  /** What an operation throws to its caller. */
  datatype Thrown =
    | TaskNotFound    // `new Error("Task not found")`
    | NoUser          // reading `user.id` while no user is signed in
    | StorageFailure  // the storage call itself failed

  /** A task record. Status and priority are strings, as in the source: a caller or
      a stored record may carry any value, not only the TASK_STATUS and
      PRIORITY_LEVELS constants. `None` stands for a key the record does not have. */
  datatype Task = Task(
    id: string,
    userId: string,
    title: string,
    description: string,
    priority: string,
    status: string,
    expiryTime: int,
    createdAt: int,
    updatedAt: Option<int>,
    completedAt: Option<int>,
    expiredAt: Option<int>)

  /** The keys a caller's object literal supplies; an absent key is `None`. */
  datatype Patch = Patch(
    id: Option<string>,
    userId: Option<string>,
    title: Option<string>,
    description: Option<string>,
    priority: Option<string>,
    status: Option<string>,
    expiryTime: Option<int>,
    createdAt: Option<int>,
    updatedAt: Option<int>,
    completedAt: Option<int>,
    expiredAt: Option<int>)

  const NoFields: Patch := Patch(None, None, None, None, None, None, None, None, None, None, None)

  /** The object spread `{ ...t, ...p }`: every key `p` supplies wins. */
  function Merge(t: Task, p: Patch): Task {
    Task(
      p.id.GetOr(t.id),
      p.userId.GetOr(t.userId),
      p.title.GetOr(t.title),
      p.description.GetOr(t.description),
      p.priority.GetOr(t.priority),
      p.status.GetOr(t.status),
      p.expiryTime.GetOr(t.expiryTime),
      p.createdAt.GetOr(t.createdAt),
      if p.updatedAt.Some? then p.updatedAt else t.updatedAt,
      if p.completedAt.Some? then p.completedAt else t.completedAt,
      if p.expiredAt.Some? then p.expiredAt else t.expiredAt)
  }

  /** The storage key of a user's collection. */
  function StorageKey(userId: string): string {
    "tasks_" + userId
  }

  /** Distinct users never share a storage key. */
  lemma StorageKeyInjective(u: string, v: string)
    requires StorageKey(u) == StorageKey(v)
    ensures u == v
  {
    assert u == StorageKey(u)[6..];
    assert v == StorageKey(v)[6..];
  }

  // ---------------------------------------------------------------------------
  // addTask

  /** The keys every caller of `addTask` passes: a stored task always has them. */
  predicate SuppliesContent(data: Patch) {
    data.title.Some? && data.description.Some? && data.priority.Some? && data.expiryTime.Some?
  }

  /** The record `addTask` builds: id, owner, pending status and creation time,
      then the caller's keys spread over them. */
  function NewTask(id: string, userId: string, now: int, data: Patch): Task
    requires SuppliesContent(data)
  {
    var base := Task(id, userId, data.title.value, data.description.value, data.priority.value,
                     PENDING, data.expiryTime.value, now, None, None, None);
    Merge(base, data)
  }

  /** The defaults of a new task hold exactly where the caller supplies nothing. */
  lemma NewTaskFields(id: string, userId: string, now: int, data: Patch)
    requires SuppliesContent(data)
    ensures var t := NewTask(id, userId, now, data);
      && t.id == data.id.GetOr(id)
      && t.userId == data.userId.GetOr(userId)
      && t.status == data.status.GetOr(PENDING)
      && t.createdAt == data.createdAt.GetOr(now)
      && t.title == data.title.value && t.description == data.description.value
      && t.priority == data.priority.value && t.expiryTime == data.expiryTime.value
      && t.updatedAt == data.updatedAt && t.completedAt == data.completedAt
      && t.expiredAt == data.expiredAt
  {
  }

  // ---------------------------------------------------------------------------
  // updateTask and completeTask

  /** `tasks.findIndex(task => task.id === id)`: the first index holding `id`, or -1. */
  function FindIndex(ts: seq<Task>, id: string): (r: int)
    ensures -1 <= r < |ts|
    ensures r == -1 <==> forall i | 0 <= i < |ts| :: ts[i].id != id
    ensures r != -1 ==> ts[r].id == id && forall i | 0 <= i < r :: ts[i].id != id
    decreases |ts|
  {
    if ts == [] then -1
    else if ts[0].id == id then 0
    else
      var k := FindIndex(ts[1..], id);
      assert forall i | 1 <= i < |ts| :: ts[i] == ts[1..][i - 1];
      if k == -1 then -1 else k + 1
  }

  /** The record `updateTask` stores: the old one, the caller's keys, then `updatedAt`. */
  function Stamped(t: Task, data: Patch, now: int): Task {
    Merge(t, data).(updatedAt := Some(now))
  }

  /** The collection after `updateTask(id, data)`, or `None` when no task has `id`. */
  function UpdatedTasks(ts: seq<Task>, id: string, data: Patch, now: int): Option<seq<Task>> {
    var i := FindIndex(ts, id);
    if i == -1 then None else Some(ts[i := Stamped(ts[i], data, now)])
  }

  /** An update changes the first task holding `id` and nothing else; the stamp
      `updatedAt = now` wins over any `updatedAt` the caller supplies. */
  lemma UpdateChangesOnlyFirstMatch(ts: seq<Task>, id: string, data: Patch, now: int)
    ensures UpdatedTasks(ts, id, data, now).None? <==> forall i | 0 <= i < |ts| :: ts[i].id != id
    ensures UpdatedTasks(ts, id, data, now).Some? ==>
      var us := UpdatedTasks(ts, id, data, now).value;
      var i := FindIndex(ts, id);
      && |us| == |ts|
      && us[i] == Merge(ts[i], data).(updatedAt := Some(now))
      && us[i].updatedAt == Some(now)
      && (forall j | 0 <= j < i :: ts[j].id != id)
      && (forall j | 0 <= j < |ts| && j != i :: us[j] == ts[j])
  {
  }

  /** The keys `completeTask` passes to `updateTask`. */
  function CompletionFields(now: int): Patch {
    NoFields.(status := Some(COMPLETED), completedAt := Some(now))
  }

  /** Completing does not look at the current status: an expired or already
      completed task becomes completed too, and `completedAt` is overwritten. */
  lemma CompletionIgnoresStatus(t: Task, now: int)
    ensures Stamped(t, CompletionFields(now), now)
      == t.(status := COMPLETED, completedAt := Some(now), updatedAt := Some(now))
  {
  }

  // ---------------------------------------------------------------------------
  // deleteTask

  /** `tasks.filter(task => task.id !== id)`. */
  function Without(ts: seq<Task>, id: string): seq<Task> {
    Keep(ts, (t: Task) => t.id != id)
  }

  /** Deleting keeps, in order and with their multiplicities, exactly the
      tasks whose id differs; deleting an absent id leaves an equal collection. */
  lemma {:induction false} DeleteKeepsOthers(ts: seq<Task>, id: string)
    ensures IsSubsequence(Without(ts, id), ts)
    ensures forall t | t in Without(ts, id) :: t.id != id
    ensures forall t | t in ts && t.id != id :: t in Without(ts, id)
    ensures (forall i | 0 <= i < |ts| :: ts[i].id != id) <==> Without(ts, id) == ts
    ensures forall x :: multiset(Without(ts, id))[x] == if x.id != id then multiset(ts)[x] else 0
  {
    var p := (t: Task) => t.id != id;
    KeepIsSubsequence(ts, p);
    forall x ensures multiset(Without(ts, id))[x] == if x.id != id then multiset(ts)[x] else 0 {
      KeepMultiset(ts, p, x);
    }
    forall t | t in ts && t.id != id ensures t in Without(ts, id) {
      KeepRetains(ts, p, t);
    }
    KeepAll(ts, p);
  }

  // ---------------------------------------------------------------------------
  // checkExpiredTasks, and the mapping loadTasks applies

  /** A pending task whose deadline is not after `now`. */
  predicate Overdue(t: Task, now: int) {
    t.status == PENDING && t.expiryTime <= now
  }

  ghost predicate AnyOverdue(ts: seq<Task>, now: int) {
    exists i | 0 <= i < |ts| :: Overdue(ts[i], now)
  }

  /** What the periodic sweep does to one task. */
  function Expire(t: Task, now: int): Task {
    if Overdue(t, now) then t.(status := EXPIRED, expiredAt := Some(now)) else t
  }

  /** The sweep over a whole collection, task by task. */
  function ExpireAll(ts: seq<Task>, now: int): (r: seq<Task>)
    ensures |r| == |ts|
  {
    seq(|ts|, i requires 0 <= i < |ts| => Expire(ts[i], now))
  }

  /** `checkExpiredTasks`' loop: the swept collection and whether any task changed. */
  method SweepTasks(ts: seq<Task>, now: int) returns (updated: seq<Task>, hasChanges: bool)
    ensures updated == ExpireAll(ts, now)
    ensures hasChanges <==> AnyOverdue(ts, now)
  {
    updated := [];
    hasChanges := false;
    var i := 0;
    while i < |ts|
      invariant 0 <= i <= |ts|
      invariant |updated| == i
      invariant forall k | 0 <= k < i :: updated[k] == Expire(ts[k], now)
      invariant hasChanges <==> exists k | 0 <= k < i :: Overdue(ts[k], now)
    {
      var task := ts[i];
      if task.status == PENDING && task.expiryTime <= now {
        hasChanges := true;
        updated := updated + [task.(status := EXPIRED, expiredAt := Some(now))];
      } else {
        updated := updated + [task];
      }
      i := i + 1;
    }
  }

  /** The sweep expires every overdue task, stamps it with `now`, and leaves
      every other task identical. */
  lemma SweepEffect(ts: seq<Task>, now: int, i: int)
    requires 0 <= i < |ts|
    ensures Overdue(ts[i], now) ==>
      ExpireAll(ts, now)[i] == ts[i].(status := EXPIRED, expiredAt := Some(now))
    ensures !Overdue(ts[i], now) ==> ExpireAll(ts, now)[i] == ts[i]
    ensures !Overdue(ExpireAll(ts, now)[i], now)
  {
  }

  /** The sweep changes the collection exactly when some task is overdue. */
  lemma SweepChangesIffOverdue(ts: seq<Task>, now: int)
    ensures ExpireAll(ts, now) == ts <==> !AnyOverdue(ts, now)
  {
    if AnyOverdue(ts, now) {
      var i :| 0 <= i < |ts| && Overdue(ts[i], now);
      assert ExpireAll(ts, now)[i].status == EXPIRED != ts[i].status;
    } else {
      assert forall i | 0 <= i < |ts| :: ExpireAll(ts, now)[i] == ts[i];
    }
  }

  /** A second sweep at the same instant changes nothing. */
  lemma SweepIdempotent(ts: seq<Task>, now: int)
    ensures !AnyOverdue(ExpireAll(ts, now), now)
    ensures ExpireAll(ExpireAll(ts, now), now) == ExpireAll(ts, now)
  {
    SweepChangesIffOverdue(ExpireAll(ts, now), now);
  }

  /** The sweep never moves a task out of a non-pending status. */
  lemma SweepKeepsFinishedTasks(ts: seq<Task>, now: int, i: int)
    requires 0 <= i < |ts| && ts[i].status != PENDING
    ensures ExpireAll(ts, now)[i] == ts[i]
  {
  }

  /** What `loadTasks` does to one stored task: the status changes, but
      `expiredAt` is not stamped. */
  function ExpireOnLoad(t: Task, now: int): Task {
    if Overdue(t, now) then t.(status := EXPIRED) else t
  }

  function ExpireAllOnLoad(ts: seq<Task>, now: int): seq<Task> {
    seq(|ts|, i requires 0 <= i < |ts| => ExpireOnLoad(ts[i], now))
  }

  /** Loading agrees with the sweep except that each task keeps its stored
      `expiredAt`; and it preserves the length, so the write-back that `loadTasks`
      guards with a length comparison never happens. */
  lemma LoadIsSweepWithoutStamp(ts: seq<Task>, now: int)
    ensures |ExpireAllOnLoad(ts, now)| == |ts|
    ensures forall i | 0 <= i < |ts| ::
      ExpireAllOnLoad(ts, now)[i] == ExpireAll(ts, now)[i].(expiredAt := ts[i].expiredAt)
  {
  }

  // ---------------------------------------------------------------------------
  // getFilteredTasks and getTaskById

  /** The `switch (filter)` inside `getFilteredTasks`: any other filter keeps every task. */
  predicate MatchesFilter(t: Task, filter: string) {
    if filter == "pending" then t.status == PENDING
    else if filter == "expired" then t.status == EXPIRED
    else if filter == "completed" then t.status == COMPLETED
    else if filter == "high" then t.priority == HIGH
    else if filter == "medium" then t.priority == MEDIUM
    else if filter == "low" then t.priority == LOW
    else true
  }

  function FilterTasks(ts: seq<Task>, filter: string): seq<Task> {
    Keep(ts, (t: Task) => MatchesFilter(t, filter))
  }

  predicate IsKnownFilter(filter: string) {
    filter in {"pending", "expired", "completed", "high", "medium", "low"}
  }

  /** A filter result is an order-preserving subsequence of the collection,
      holding exactly the matching tasks, each as often as in the collection;
      an unknown filter such as `"all"`
      returns the collection itself. */
  lemma {:induction false} FilterProperties(ts: seq<Task>, filter: string)
    ensures IsSubsequence(FilterTasks(ts, filter), ts)
    ensures forall t | t in ts :: t in FilterTasks(ts, filter) <==> MatchesFilter(t, filter)
    ensures !IsKnownFilter(filter) ==> FilterTasks(ts, filter) == ts
    ensures forall x :: multiset(FilterTasks(ts, filter))[x] == if MatchesFilter(x, filter) then multiset(ts)[x] else 0
  {
    var p := (t: Task) => MatchesFilter(t, filter);
    KeepIsSubsequence(ts, p);
    forall x ensures multiset(FilterTasks(ts, filter))[x] == if MatchesFilter(x, filter) then multiset(ts)[x] else 0 {
      KeepMultiset(ts, p, x);
    }
    forall t | t in ts && MatchesFilter(t, filter) ensures t in FilterTasks(ts, filter) {
      KeepRetains(ts, p, t);
    }
    KeepAll(ts, p);
  }

  predicate HasKnownStatus(t: Task) {
    t.status == PENDING || t.status == EXPIRED || t.status == COMPLETED
  }

  /** The three status filters test exactly the status. */
  lemma StatusFilterMeaning(t: Task)
    ensures MatchesFilter(t, "pending") <==> t.status == PENDING
    ensures MatchesFilter(t, "expired") <==> t.status == EXPIRED
    ensures MatchesFilter(t, "completed") <==> t.status == COMPLETED
  {
    assert "expired"[0] != "pending"[0];
    assert "completed"[0] != "pending"[0] && "completed"[0] != "expired"[0];
  }

  /** When every status is a TASK_STATUS value, the pending, expired and
      completed views share no task and together hold the collection, with
      every task as often as it occurs. */
  lemma {:induction false} StatusFiltersPartition(ts: seq<Task>)
    requires forall i | 0 <= i < |ts| :: HasKnownStatus(ts[i])
    ensures var p, e, c := FilterTasks(ts, "pending"), FilterTasks(ts, "expired"), FilterTasks(ts, "completed");
      && multiset(p) + multiset(e) + multiset(c) == multiset(ts)
      && |p| + |e| + |c| == |ts|
      && (forall t | t in p :: t !in e && t !in c)
      && (forall t | t in e :: t !in c)
  {
    var p, e, c := FilterTasks(ts, "pending"), FilterTasks(ts, "expired"), FilterTasks(ts, "completed");
    StatusCounts(ts);
    assert |multiset(p) + multiset(e) + multiset(c)| == |multiset(ts)|;
    forall t | t in p ensures t !in e && t !in c {
      StatusFilterMeaning(t);
    }
    forall t | t in e ensures t !in c {
      StatusFilterMeaning(t);
    }
  }

  lemma StatusCounts(ts: seq<Task>)
    requires forall i | 0 <= i < |ts| :: HasKnownStatus(ts[i])
    ensures multiset(FilterTasks(ts, "pending")) + multiset(FilterTasks(ts, "expired"))
      + multiset(FilterTasks(ts, "completed")) == multiset(ts)
  {
    var p, e, c := FilterTasks(ts, "pending"), FilterTasks(ts, "expired"), FilterTasks(ts, "completed");
    forall x ensures (multiset(p) + multiset(e) + multiset(c))[x] == multiset(ts)[x] {
      KeepMultiset(ts, (t: Task) => MatchesFilter(t, "pending"), x);
      KeepMultiset(ts, (t: Task) => MatchesFilter(t, "expired"), x);
      KeepMultiset(ts, (t: Task) => MatchesFilter(t, "completed"), x);
      StatusFilterMeaning(x);
      if x in ts {
        var i :| 0 <= i < |ts| && ts[i] == x;
        assert HasKnownStatus(ts[i]);
      }
    }
  }

  /** `tasks.find(task => task.id === id)`. */
  function TaskById(ts: seq<Task>, id: string): (r: Option<Task>)
    ensures r.None? <==> forall i | 0 <= i < |ts| :: ts[i].id != id
    ensures r.Some? ==> exists i | 0 <= i < |ts| ::
      ts[i] == r.value && r.value.id == id && forall k | 0 <= k < i :: ts[k].id != id
    decreases |ts|
  {
    if ts == [] then None
    else if ts[0].id == id then Some(ts[0])
    else
      var r := TaskById(ts[1..], id);
      if r.Some? then
        var i :| 0 <= i < |ts| - 1 && ts[1..][i] == r.value && r.value.id == id
                 && forall k | 0 <= k < i :: ts[1..][k].id != id;
        assert ts[i + 1] == r.value;
        r
      else
        assert forall i | 0 <= i < |ts| - 1 :: ts[i + 1] == ts[1..][i];
        r
  }

  // ---------------------------------------------------------------------------
  // The provider's state

  class TaskStore {
    var user: Option<string>                  // id of the signed-in user, if any
    var tasks: seq<Task>
    var storage: map<string, seq<Task>>       // the persisted collections by key
    var loading: bool
    var error: Option<string>

    /** The provider's initial state; loading starts as true. */
    constructor (user: Option<string>, storage: map<string, seq<Task>>)
      ensures this.user == user && this.storage == storage
      ensures tasks == [] && loading && error == None
    {
      this.user := user;
      this.storage := storage;
      tasks := [];
      loading := true;
      error := None;
    }

    /** A write can only succeed while a user is signed in. */
    predicate CanWrite(writeOk: bool)
      reads this
    {
      user.Some? && writeOk
    }

    /** `saveTasks`: the in-memory collection is replaced only after the write
        succeeds; a failed write leaves both unchanged and is not rethrown. */
    method Save(newTasks: seq<Task>, writeOk: bool)
      modifies this
      ensures user == old(user) && loading == old(loading)
      ensures CanWrite(writeOk) ==>
        storage == old(storage)[StorageKey(user.value) := newTasks] && tasks == newTasks && error == old(error)
      ensures !CanWrite(writeOk) ==>
        storage == old(storage) && tasks == old(tasks) && error == Some(SAVE_FAILED)
    {
      if user.Some? && writeOk {
        storage := storage[StorageKey(user.value) := newTasks];
        tasks := newTasks;
      } else {
        error := Some(SAVE_FAILED);
      }
    }

    /** `loadTasks` for the signed-in user: an absent key leaves the collection
        as it was; a present one is loaded with overdue tasks marked expired. */
    method Load(now: int, readOk: bool)
      requires user.Some?
      modifies this
      ensures user == old(user) && storage == old(storage) && !loading
      ensures !readOk ==> tasks == old(tasks) && error == Some(LOAD_FAILED)
      ensures readOk && StorageKey(user.value) !in storage ==> tasks == old(tasks) && error == old(error)
      ensures readOk && StorageKey(user.value) in storage ==>
        tasks == ExpireAllOnLoad(storage[StorageKey(user.value)], now) && error == old(error)
    {
      loading := true;
      var key := StorageKey(user.value);
      if !readOk {
        error := Some(LOAD_FAILED);
      } else if key in storage {
        var parsedTasks := storage[key];
        var updatedTasks := ExpireAllOnLoad(parsedTasks, now);
        tasks := updatedTasks;
        LoadIsSweepWithoutStamp(parsedTasks, now);
        // The write-back runs only when the lengths differ, and `map` keeps
        // the length, so it never runs and no write outcome is needed.
        assert |updatedTasks| == |parsedTasks|;
      }
      loading := false;
    }

    /** The effect that runs when the identity provider's user changes. */
    method UserChanged(u: Option<string>, now: int, readOk: bool)
      modifies this
      ensures user == u && storage == old(storage)
      ensures u.None? ==> tasks == [] && loading == old(loading) && error == old(error)
      ensures u.Some? && !readOk ==> tasks == old(tasks) && error == Some(LOAD_FAILED) && !loading
      ensures u.Some? && readOk ==>
        && error == old(error) && !loading
        && tasks == (if StorageKey(u.value) in storage
                     then ExpireAllOnLoad(storage[StorageKey(u.value)], now) else old(tasks))
    {
      user := u;
      if u.Some? {
        Load(now, readOk);
      } else {
        tasks := [];
      }
    }

    /** `addTask`: appends the new record and returns it. The record is returned
        even when the write fails, since `saveTasks` does not rethrow. */
    method AddTask(id: string, now: int, data: Patch, writeOk: bool) returns (r: Result<Task, Thrown>)
      requires SuppliesContent(data)
      modifies this
      ensures user == old(user) && loading == old(loading)
      ensures user.None? ==>
        r == Err(NoUser) && tasks == old(tasks) && storage == old(storage) && error == Some(ADD_FAILED)
      ensures user.Some? ==> r == Ok(NewTask(id, user.value, now, data))
      ensures CanWrite(writeOk) ==>
        tasks == old(tasks) + [r.value] && storage == old(storage)[StorageKey(user.value) := tasks]
        && error == old(error)
      ensures user.Some? && !writeOk ==>
        tasks == old(tasks) && storage == old(storage) && error == Some(SAVE_FAILED)
    {
      if user.None? {
        error := Some(ADD_FAILED);
        return Err(NoUser);
      }
      var newTask := NewTask(id, user.value, now, data);
      Save(tasks + [newTask], writeOk);
      r := Ok(newTask);
    }

    /** `updateTask`: merges `data` into the first task holding `taskId` and
        returns the merged record, or throws "Task not found". */
    method UpdateTask(taskId: string, data: Patch, now: int, writeOk: bool) returns (r: Result<Task, Thrown>)
      modifies this
      ensures user == old(user) && loading == old(loading)
      ensures UpdatedTasks(old(tasks), taskId, data, now).None? ==>
        r == Err(TaskNotFound) && tasks == old(tasks) && storage == old(storage)
        && error == Some(UPDATE_FAILED)
      ensures UpdatedTasks(old(tasks), taskId, data, now).Some? ==>
        var updated := UpdatedTasks(old(tasks), taskId, data, now).value;
        && r == Ok(updated[FindIndex(old(tasks), taskId)])
        && (CanWrite(writeOk) ==>
              tasks == updated && storage == old(storage)[StorageKey(user.value) := updated]
              && error == old(error))
        && (!CanWrite(writeOk) ==>
              tasks == old(tasks) && storage == old(storage) && error == Some(SAVE_FAILED))
    {
      var taskIndex := FindIndex(tasks, taskId);
      if taskIndex == -1 {
        error := Some(UPDATE_FAILED);
        return Err(TaskNotFound);
      }
      var updatedTasks := tasks[taskIndex := Stamped(tasks[taskIndex], data, now)];
      Save(updatedTasks, writeOk);
      r := Ok(updatedTasks[taskIndex]);
    }

    /** `completeTask`: `updateTask(id, { status: completed, completedAt: now })`.
        A failure of the update is recorded as "Failed to complete task". */
    method CompleteTask(taskId: string, now: int, writeOk: bool) returns (failure: Option<Thrown>)
      modifies this
      ensures user == old(user) && loading == old(loading)
      ensures UpdatedTasks(old(tasks), taskId, CompletionFields(now), now).None? ==>
        failure == Some(TaskNotFound) && tasks == old(tasks) && storage == old(storage)
        && error == Some(COMPLETE_FAILED)
      ensures UpdatedTasks(old(tasks), taskId, CompletionFields(now), now).Some? ==>
        var updated := UpdatedTasks(old(tasks), taskId, CompletionFields(now), now).value;
        && failure == None
        && (CanWrite(writeOk) ==>
              tasks == updated && storage == old(storage)[StorageKey(user.value) := updated]
              && error == old(error))
        && (!CanWrite(writeOk) ==>
              tasks == old(tasks) && storage == old(storage) && error == Some(SAVE_FAILED))
    {
      var r := UpdateTask(taskId, CompletionFields(now), now, writeOk);
      if r.Err? {
        error := Some(COMPLETE_FAILED);
        failure := Some(r.error);
      } else {
        failure := None;
      }
    }

    /** `deleteTask`: keeps the tasks whose id differs. It never throws: an absent
        id, a failed write or a missing user are all absorbed by `saveTasks`. */
    method DeleteTask(taskId: string, writeOk: bool)
      modifies this
      ensures user == old(user) && loading == old(loading)
      ensures CanWrite(writeOk) ==>
        tasks == Without(old(tasks), taskId) && storage == old(storage)[StorageKey(user.value) := tasks]
        && error == old(error)
      ensures !CanWrite(writeOk) ==>
        tasks == old(tasks) && storage == old(storage) && error == Some(SAVE_FAILED)
    {
      Save(Without(tasks, taskId), writeOk);
    }

    /** `checkExpiredTasks`: expires the overdue tasks and writes only when at
        least one task changed. */
    method CheckExpiredTasks(now: int, writeOk: bool)
      modifies this
      ensures user == old(user) && loading == old(loading)
      ensures !AnyOverdue(old(tasks), now) ==>
        tasks == old(tasks) && storage == old(storage) && error == old(error)
      ensures AnyOverdue(old(tasks), now) && CanWrite(writeOk) ==>
        tasks == ExpireAll(old(tasks), now) && storage == old(storage)[StorageKey(user.value) := tasks]
        && error == old(error)
      ensures AnyOverdue(old(tasks), now) && !CanWrite(writeOk) ==>
        tasks == old(tasks) && storage == old(storage) && error == Some(SAVE_FAILED)
    {
      var updatedTasks, hasChanges := SweepTasks(tasks, now);
      if hasChanges {
        Save(updatedTasks, writeOk);
      }
    }

    /** `clearAllTasks`: removes the user's key and empties the collection. */
    method ClearAllTasks(removeOk: bool) returns (failure: Option<Thrown>)
      modifies this
      ensures user == old(user) && loading == old(loading)
      ensures user.None? ==>
        failure == Some(NoUser) && tasks == old(tasks) && storage == old(storage) && error == Some(CLEAR_FAILED)
      ensures user.Some? && !removeOk ==>
        failure == Some(StorageFailure) && tasks == old(tasks) && storage == old(storage)
        && error == Some(CLEAR_FAILED)
      ensures user.Some? && removeOk ==>
        failure == None && tasks == [] && storage == old(storage) - {StorageKey(user.value)}
        && error == old(error)
    {
      if user.None? {
        error := Some(CLEAR_FAILED);
        return Some(NoUser);
      }
      if !removeOk {
        error := Some(CLEAR_FAILED);
        return Some(StorageFailure);
      }
      storage := storage - {StorageKey(user.value)};
      tasks := [];
      failure := None;
    }
  }
}
