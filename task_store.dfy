/**
 * The task list operations of the session store (src/context/UserContext.tsx),
 * as functions from the old list to the new one. The `Session` class applies
 * them to its `tasks` cell.
 */
module TaskStore {
  import opened Types
  import opened StableSort
  import opened TaskSeq

  /**
   * The store's default order: incomplete before completed, then priority
   * weight descending. (`priorityWeight[p] || 1` falls back to 1 only for a
   * priority outside the three values, which the typed model cannot hold.)
   */
  function StoreKey(t: Task): Key {
    (if t.completed then 1 else 0, -PriorityWeight(t.priority), 0)
  }

  /** The comparator passed to `sort` by `sortTasks`. */
  function StoreCompare(a: Task, b: Task): int {
    if a.completed != b.completed then (if a.completed then 1 else -1)
    else PriorityWeight(b.priority) - PriorityWeight(a.priority)
  }

  lemma StoreCompareAgreesWithKey(a: Task, b: Task)
    ensures StoreCompare(a, b) < 0 <==> KeyLess(StoreKey(a), StoreKey(b))
    ensures StoreCompare(a, b) == 0 <==> StoreKey(a) == StoreKey(b)
  {
  }

  /**
   * `sortTasks`: a permutation in which no completed task precedes an
   * incomplete one and, among tasks of equal completion, priority weight
   * never increases.
   */
  function SortTasks(ts: seq<Task>): (r: seq<Task>)
    ensures multiset(r) == multiset(ts)
    ensures forall i, j :: 0 <= i < j < |r| && r[i].completed ==> r[j].completed
    ensures forall i, j :: 0 <= i < j < |r| && r[i].completed == r[j].completed ==>
              PriorityWeight(r[i].priority) >= PriorityWeight(r[j].priority)
  {
    var r := SortBy(ts, StoreKey);
    assert forall i, j :: 0 <= i < j < |r| ==> !KeyLess(StoreKey(r[j]), StoreKey(r[i]));
    r
  }

  /** Ties keep their relative order: each (completion, priority) group is unchanged. */
  lemma SortTasksStable(ts: seq<Task>, k: Key)
    ensures Class(SortTasks(ts), StoreKey, k) == Class(ts, StoreKey, k)
  {
    SortByStable(ts, StoreKey, k);
  }

  /** Re-sorting the store's sorted list leaves it as it is. */
  lemma SortTasksIdempotent(ts: seq<Task>)
    ensures SortTasks(SortTasks(ts)) == SortTasks(ts)
  {
    SortBySortedIsIdentity(SortBy(ts, StoreKey), StoreKey);
  }

  /** The in-place changes `{ ...t, ... }` that the store applies to matching tasks. */
  datatype Edit = Flip | Progress(flag: bool) | Patch(patch: TaskPatch)

  function ApplyEdit(t: Task, e: Edit): (u: Task)
    ensures u.id == t.id && u.createdAt == t.createdAt
  {
    match e
    case Flip => t.(completed := !t.completed)
    case Progress(b) => t.(inProgress := b, completed := false)
    case Patch(p) =>
      t.(title := p.title, category := p.category, priority := p.priority,
         effort := p.effort, dueDate := p.dueDate)
  }

  /** `prev.map(t => t.id === id ? edit(t) : t)`. */
  function EditTasks(ts: seq<Task>, id: string, e: Edit): (r: seq<Task>)
    ensures |r| == |ts|
    ensures forall i :: 0 <= i < |ts| ==> r[i] == if ts[i].id == id then ApplyEdit(ts[i], e) else ts[i]
  {
    if ts == [] then [] else [if ts[0].id == id then ApplyEdit(ts[0], e) else ts[0]] + EditTasks(ts[1..], id, e)
  }

  /** Tasks with another id occur exactly as often after the edit as before. */
  lemma {:induction false} EditKeepsOthers(ts: seq<Task>, id: string, e: Edit, t: Task)
    requires t.id != id
    ensures multiset(EditTasks(ts, id, e))[t] == multiset(ts)[t]
  {
    if ts != [] {
      EditKeepsOthers(ts[1..], id, e, t);
      assert ts == [ts[0]] + ts[1..];
      assert EditTasks(ts, id, e) == [EditTasks(ts, id, e)[0]] + EditTasks(ts[1..], id, e);
    }
  }

  /** Editing an id that no task carries changes nothing. */
  lemma EditAbsent(ts: seq<Task>, id: string, e: Edit)
    requires !HasId(ts, id)
    ensures EditTasks(ts, id, e) == ts
  {
  }

  /** `addTask`: append the new record, then re-sort. */
  function AddTasks(ts: seq<Task>, t: Task): (r: seq<Task>)
    ensures multiset(r) == multiset(ts) + multiset{t}
  {
    SortTasks(ts + [t])
  }

  /** `toggleTask`: flip `completed` of the tasks with that id, then re-sort. */
  function ToggleTasks(ts: seq<Task>, id: string): seq<Task> {
    SortTasks(EditTasks(ts, id, Flip))
  }

  /** `updateTask`: overwrite the patched fields of the tasks with that id, then re-sort. */
  function UpdateTasks(ts: seq<Task>, id: string, p: TaskPatch): seq<Task> {
    SortTasks(EditTasks(ts, id, Patch(p)))
  }

  /** `setTaskInProgress`: set `inProgress := b, completed := false`; no re-sort. */
  function SetInProgress(ts: seq<Task>, id: string, b: bool): seq<Task> {
    EditTasks(ts, id, Progress(b))
  }

  /** `deleteTask`: `prev.filter(t => t.id !== id)`. */
  function DeleteTasks(ts: seq<Task>, id: string): (r: seq<Task>)
    ensures forall t :: t in r <==> t in ts && t.id != id
    ensures !HasId(r, id)
  {
    var r := Filter(ts, (t: Task) => t.id != id);
    assert forall i :: 0 <= i < |r| ==> r[i] in r;
    r
  }

  lemma DeleteAbsent(ts: seq<Task>, id: string)
    requires !HasId(ts, id)
    ensures DeleteTasks(ts, id) == ts
  {
    FilterAll(ts, (t: Task) => t.id != id);
  }

  lemma DeleteIdempotent(ts: seq<Task>, id: string)
    ensures DeleteTasks(DeleteTasks(ts, id), id) == DeleteTasks(ts, id)
  {
    DeleteAbsent(DeleteTasks(ts, id), id);
  }

  /** Deleting keeps the other tasks in their order: it distributes over concatenation. */
  lemma DeleteKeepsOrder(a: seq<Task>, b: seq<Task>, id: string)
    ensures DeleteTasks(a + b, id) == DeleteTasks(a, id) + DeleteTasks(b, id)
  {
    FilterAppend(a, b, (t: Task) => t.id != id);
  }

  /** The number of tasks that a toggle of `id` takes from incomplete to completed. */
  function NewlyCompleted(ts: seq<Task>, id: string): nat {
    |Filter(ts, (t: Task) => t.id == id && !t.completed)|
  }

  /** With unique ids a toggle completes one task if the task was incomplete, none otherwise. */
  lemma NewlyCompletedUnique(ts: seq<Task>, k: int)
    requires UniqueIds(ts) && 0 <= k < |ts|
    ensures NewlyCompleted(ts, ts[k].id) == if ts[k].completed then 0 else 1
  {
    var id := ts[k].id;
    var f := Filter(ts, (t: Task) => t.id == id && !t.completed);
    if ts[k].completed {
      forall t | t in ts ensures !(t.id == id && !t.completed) {
        var j :| 0 <= j < |ts| && ts[j] == t;
      }
      FilterNone(ts, (t: Task) => t.id == id && !t.completed);
    } else {
      SingleMatch(ts, k, (t: Task) => t.id == id && !t.completed);
    }
  }

  lemma {:induction false} SingleMatch(ts: seq<Task>, k: int, keep: Task -> bool)
    requires UniqueIds(ts) && 0 <= k < |ts| && keep(ts[k])
    requires forall t :: keep(t) ==> t.id == ts[k].id
    ensures |Filter(ts, keep)| == 1
  {
    if k == 0 {
      forall t | t in ts[1..] ensures !keep(t) {
        var j :| 0 <= j < |ts[1..]| && ts[1..][j] == t;
        assert ts[j + 1] == t;
      }
      FilterNone(ts[1..], keep);
    } else {
      assert !keep(ts[0]);
      assert UniqueIds(ts[1..]) by {
        forall i, j | 0 <= i < |ts[1..]| && 0 <= j < |ts[1..]| && ts[1..][i].id == ts[1..][j].id
          ensures i == j
        {
          assert ts[i + 1].id == ts[j + 1].id;
        }
      }
      assert ts[1..][k - 1] == ts[k];
      SingleMatch(ts[1..], k - 1, keep);
    }
  }

  /**
   * The toggled list holds the same tasks as before except that each task
   * with that id is replaced by its flipped copy; tasks with another id keep
   * their multiplicity.
   */
  lemma ToggleContents(ts: seq<Task>, id: string, t: Task)
    ensures t.id != id ==> multiset(ToggleTasks(ts, id))[t] == multiset(ts)[t]
    ensures t in ts && t.id == id ==> t.(completed := !t.completed) in ToggleTasks(ts, id)
    ensures t in ToggleTasks(ts, id) && t.id == id ==> t.(completed := !t.completed) in ts
  {
    var e := EditTasks(ts, id, Flip);
    if t.id != id {
      EditKeepsOthers(ts, id, Flip, t);
    }
    if t in ts && t.id == id {
      var i :| 0 <= i < |ts| && ts[i] == t;
      assert e[i] in multiset(e);
    }
    if t in ToggleTasks(ts, id) && t.id == id {
      assert t in multiset(e);
      var i :| 0 <= i < |e| && e[i] == t;
      assert ts[i].(completed := !ts[i].completed) == t;
    }
  }

  /**
   * With unique ids, toggling `ts[k].id` leaves exactly one task with that
   * id, the flipped copy of `ts[k]`.
   */
  lemma ToggleUnique(ts: seq<Task>, k: int)
    requires UniqueIds(ts) && 0 <= k < |ts|
    ensures ts[k].(completed := !ts[k].completed) in ToggleTasks(ts, ts[k].id)
    ensures forall t :: t in ToggleTasks(ts, ts[k].id) && t.id == ts[k].id ==>
              t == ts[k].(completed := !ts[k].completed)
  {
    var id := ts[k].id;
    ToggleContents(ts, id, ts[k]);
    forall t | t in ToggleTasks(ts, id) && t.id == id
      ensures t == ts[k].(completed := !ts[k].completed)
    {
      ToggleContents(ts, id, t);
      var j :| 0 <= j < |ts| && ts[j] == t.(completed := !t.completed);
    }
  }

  /** Setting the in-progress flag leaves every task with that id with the flag and not completed. */
  lemma SetInProgressEffect(ts: seq<Task>, id: string, flag: bool)
    ensures forall t :: t in SetInProgress(ts, id, flag) && t.id == id ==> t.inProgress == flag && !t.completed
    ensures forall i :: 0 <= i < |ts| && ts[i].id == id ==>
              ts[i].(inProgress := flag, completed := false) in SetInProgress(ts, id, flag)
    ensures forall t: Task :: t.id != id ==> multiset(SetInProgress(ts, id, flag))[t] == multiset(ts)[t]
  {
    var r := SetInProgress(ts, id, flag);
    forall t | t in r && t.id == id ensures t.inProgress == flag && !t.completed {
      var j :| 0 <= j < |r| && r[j] == t;
    }
    forall i | 0 <= i < |ts| && ts[i].id == id
      ensures ts[i].(inProgress := flag, completed := false) in r
    {
      assert r[i] in r;
    }
    forall t: Task | t.id != id ensures multiset(r)[t] == multiset(ts)[t] {
      EditKeepsOthers(ts, id, Progress(flag), t);
    }
  }
}
