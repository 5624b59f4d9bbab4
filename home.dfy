/** The task list of `app/home.js`: the search over the active filter, the
    ordering of the list, where a press on a task leads, and the two dialogs. */
module Home {
  import opened Wrappers
  import opened Sequences
  import opened Text
  import opened Tasks

  // ---------------------------------------------------------------------------
  // Search

  /** The lower-cased title includes the lower-cased query. */
  predicate MatchesSearch(t: Task, query: string) {
    Includes(ToLower(t.title), ToLower(query))
  }

  function SearchTasks(ts: seq<Task>, query: string): seq<Task> {
    Keep(ts, (t: Task) => MatchesSearch(t, query))
  }

  /** An empty query keeps every task of the filtered view, in order. */
  lemma EmptyQueryKeepsAll(ts: seq<Task>)
    ensures SearchTasks(ts, "") == ts
  {
    forall i | 0 <= i < |ts| ensures MatchesSearch(ts[i], "") {
      IncludesEmpty(ToLower(ts[i].title));
    }
    KeepAll(ts, (t: Task) => MatchesSearch(t, ""));
  }

  /** The search ignores ASCII case on both sides: a title or a query that
      differs only in the case of its letters gives the same answer. */
  lemma SearchIgnoresCase(t: Task, u: Task, query: string, query': string)
    requires SameUpToCase(t.title, u.title) && SameUpToCase(query, query')
    ensures MatchesSearch(t, query) <==> MatchesSearch(u, query')
  {
    ToLowerIgnoresCase(t.title, u.title);
    ToLowerIgnoresCase(query, query');
  }

  /** The list holds exactly the tasks that pass both the active filter and the search. */
  lemma {:induction false} SearchOfFilter(ts: seq<Task>, filter: string, query: string, t: Task)
    ensures t in SearchTasks(FilterTasks(ts, filter), query)
      <==> t in ts && MatchesFilter(t, filter) && MatchesSearch(t, query)
  {
    var filtered := FilterTasks(ts, filter);
    FilterProperties(ts, filter);
    if t in ts && MatchesFilter(t, filter) && MatchesSearch(t, query) {
      KeepRetains(filtered, (u: Task) => MatchesSearch(u, query), t);
    }
  }

  // ---------------------------------------------------------------------------
  // Ordering

  /** The comparator given to `tasks.sort`: negative when `a` goes first. */
  function Compare(a: Task, b: Task): int {
    if a.status != b.status && a.status == PENDING then -1
    else if a.status != b.status && b.status == PENDING then 1
    else if a.status == PENDING && b.status == PENDING then a.expiryTime - b.expiryTime
    else b.expiryTime - a.expiryTime
  }

  /** `a` may come before `b`. */
  predicate Le(a: Task, b: Task) {
    Compare(a, b) <= 0
  }

  /** The comparator is consistent: swapping its arguments flips its sign. */
  lemma CompareAntisymmetric(a: Task, b: Task)
    ensures Compare(a, b) == -Compare(b, a)
  {
  }

  /** `Le` is a total preorder, so a sort by it is well defined. */
  lemma LeTotalPreorder(a: Task, b: Task, c: Task)
    ensures Le(a, a)
    ensures Le(a, b) || Le(b, a)
    ensures Le(a, b) && Le(b, c) ==> Le(a, c)
  {
  }

  ghost predicate Sorted(s: seq<Task>) {
    forall i, j | 0 <= i < j < |s| :: Le(s[i], s[j])
  }

  /** In a sorted list every pending task precedes every other task; pending
      tasks run by non-decreasing `expiryTime`; the others, expired and completed
      interleaved, by non-increasing `expiryTime` (not by `expiredAt`). */
  lemma SortedOrder(s: seq<Task>, i: int, j: int)
    requires Sorted(s) && 0 <= i < j < |s|
    ensures s[j].status == PENDING ==> s[i].status == PENDING
    ensures s[i].status == PENDING && s[j].status == PENDING ==> s[i].expiryTime <= s[j].expiryTime
    ensures s[i].status != PENDING && s[j].status != PENDING ==> s[i].expiryTime >= s[j].expiryTime
  {
    assert Le(s[i], s[j]);
  }

  /** `tasks.sort(compare)`: sorts in place into a permutation of the input. */
  method SortTasks(a: array<Task>)
    modifies a
    ensures Sorted(a[..])
    ensures multiset(a[..]) == multiset(old(a[..]))
  {
    var i := 0;
    while i < a.Length
      invariant 0 <= i <= a.Length
      invariant forall p, q | 0 <= p < q < i :: Le(a[p], a[q])
      invariant multiset(a[..]) == multiset(old(a[..]))
    {
      var j := i;
      while 0 < j && Compare(a[j - 1], a[j]) > 0
        invariant 0 <= j <= i
        invariant forall p, q | 0 <= p < q <= i && p != j && q != j :: Le(a[p], a[q])
        invariant forall q | j < q <= i :: Le(a[j], a[q])
        invariant multiset(a[..]) == multiset(old(a[..]))
      {
        Swap(a, j - 1, j);
        j := j - 1;
      }
      forall p | 0 <= p < j ensures Le(a[p], a[j]) {
        LeTotalPreorder(a[p], a[j - 1], a[j]);
      }
      i := i + 1;
    }
  }

  /** Exchanges two elements in place. */
  method Swap(a: array<Task>, i: int, j: int)
    requires 0 <= i < j < a.Length
    modifies a
    ensures a[..] == old(a[..])[i := old(a[j])][j := old(a[i])]
    ensures multiset(a[..]) == multiset(old(a[..]))
  {
    a[i], a[j] := a[j], a[i];
  }

  /** The list the screen shows: the active filter, then the search, then the sort. */
  method DisplayedTasks(ts: seq<Task>, filter: string, query: string) returns (shown: seq<Task>)
    ensures Sorted(shown)
    ensures multiset(shown) == multiset(SearchTasks(FilterTasks(ts, filter), query))
    ensures forall t :: t in shown <==> t in ts && MatchesFilter(t, filter) && MatchesSearch(t, query)
  {
    var matching := SearchTasks(FilterTasks(ts, filter), query);
    var a := new Task[|matching|](i requires 0 <= i < |matching| => matching[i]);
    assert a[..] == matching;
    SortTasks(a);
    shown := a[..];
    forall t ensures t in shown <==> t in ts && MatchesFilter(t, filter) && MatchesSearch(t, query) {
      SearchOfFilter(ts, filter, query, t);
      assert t in shown <==> t in multiset(shown);
    }
  }

  // ---------------------------------------------------------------------------
  // Pressing a task, and the dialogs

  /** `handlePress`: an expired task raises the warning; any other opens its page. */
  function PressRoute(t: Task): (route: Option<string>)
    ensures route.None? <==> t.status == EXPIRED
    ensures route.Some? ==> route.value == "/tasks/" + t.id
  {
    if t.status == EXPIRED then None else Some("/tasks/" + t.id)
  }

  class HomeScreen {
    var deleteVisible: bool
    var deleteTaskId: Option<string>
    var deleteLoading: bool
    var warningVisible: bool
    var warningLoading: bool

    constructor ()
      ensures !deleteVisible && deleteTaskId.None? && !deleteLoading
      ensures !warningVisible && !warningLoading
    {
      deleteVisible, deleteTaskId, deleteLoading := false, None, false;
      warningVisible, warningLoading := false, false;
    }

    /** `handlePress`: shows the warning for an expired task and does not navigate. */
    method HandlePress(t: Task) returns (route: Option<string>)
      modifies this
      ensures route == PressRoute(t)
      ensures route.None? ==> warningVisible && !warningLoading
      ensures route.Some? ==> warningVisible == old(warningVisible) && warningLoading == old(warningLoading)
      ensures deleteVisible == old(deleteVisible) && deleteTaskId == old(deleteTaskId)
      ensures deleteLoading == old(deleteLoading)
    {
      route := PressRoute(t);
      if route.None? {
        warningVisible, warningLoading := true, false;
      }
    }

    method HandleConfirmWarningDialog()
      modifies this
      ensures !warningVisible && !warningLoading
      ensures deleteVisible == old(deleteVisible) && deleteTaskId == old(deleteTaskId)
      ensures deleteLoading == old(deleteLoading)
    {
      warningVisible, warningLoading := false, false;
    }

    method HandleDeletePress(taskId: string)
      modifies this
      ensures deleteVisible && deleteTaskId == Some(taskId) && !deleteLoading
      ensures warningVisible == old(warningVisible) && warningLoading == old(warningLoading)
    {
      deleteVisible, deleteTaskId, deleteLoading := true, Some(taskId), false;
    }

    method HandleCancelDelete()
      modifies this
      ensures !deleteVisible && deleteTaskId.None? && !deleteLoading
      ensures warningVisible == old(warningVisible) && warningLoading == old(warningLoading)
    {
      deleteVisible, deleteTaskId, deleteLoading := false, None, false;
    }

    /** `handleConfirmDelete`: deletes the chosen task and always ends with the
        dialog hidden and no task chosen. With no task chosen the filter compares
        ids against `null`, which no id equals, so every task is kept and saved. */
    method HandleConfirmDelete(store: TaskStore, writeOk: bool)
      modifies this, store
      ensures !deleteVisible && deleteTaskId.None? && !deleteLoading
      ensures warningVisible == old(warningVisible) && warningLoading == old(warningLoading)
      ensures store.user == old(store.user) && store.loading == old(store.loading)
      ensures store.CanWrite(writeOk) ==>
        && store.tasks == (if old(deleteTaskId).Some? then Without(old(store.tasks), old(deleteTaskId).value)
                           else old(store.tasks))
        && store.storage == old(store.storage)[StorageKey(store.user.value) := store.tasks]
        && store.error == old(store.error)
      ensures !store.CanWrite(writeOk) ==>
        store.tasks == old(store.tasks) && store.storage == old(store.storage) && store.error == Some(SAVE_FAILED)
    {
      deleteLoading := true;
      if deleteTaskId.Some? {
        store.DeleteTask(deleteTaskId.value, writeOk);
      } else {
        store.Save(store.tasks, writeOk);
      }
      deleteVisible, deleteTaskId, deleteLoading := false, None, false;
    }
  }
}
