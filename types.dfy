/**
 * The records and enumerations shared by the store and the components
 * (src/types/index.ts).
 */
module Types {
  import opened Dates

  datatype Option<T> = None | Some(value: T)

  datatype Priority = LOW | MEDIUM | HIGH

  /** Proficiency tier, derived from the mastery score. */
  datatype UserMode = BEGINNER | INTERMEDIATE | EXPERIENCED

  datatype CognitiveLoad = LowLoad | HighLoad | Panic

  datatype DeviceType = DESKTOP | MOBILE

  /**
   * A task. `inProgress` is optional in the record; every reader treats an
   * absent flag like `false`, and that is how it is stored here. `createdAt`
   * is the creation timestamp in milliseconds.
   */
  datatype Task = Task(
    id: string,
    title: string,
    completed: bool,
    inProgress: bool,
    priority: Priority,
    effort: int,
    category: Option<string>,
    dueDate: Option<Instant>,
    createdAt: int)

  /** What `addTask` receives: a task without its id and creation time. */
  datatype TaskDraft = TaskDraft(
    title: string,
    completed: bool,
    inProgress: bool,
    priority: Priority,
    effort: int,
    category: Option<string>,
    dueDate: Option<Instant>)

  /** The fields the edit form passes to `updateTask`; each one overwrites the task's. */
  datatype TaskPatch = TaskPatch(
    title: string,
    category: Option<string>,
    priority: Priority,
    effort: int,
    dueDate: Option<Instant>)

  datatype Metrics = Metrics(tasksCompleted: nat, missedDeadlines: nat, streakDays: nat)

  /** The record `addTask` stores: the draft's fields plus the assigned id and timestamp. */
  function Materialize(d: TaskDraft, id: string, createdAt: int): (t: Task)
    ensures t.id == id && t.createdAt == createdAt
    ensures t.title == d.title && t.completed == d.completed && t.inProgress == d.inProgress
    ensures t.priority == d.priority && t.effort == d.effort
    ensures t.category == d.category && t.dueDate == d.dueDate
  {
    Task(id, d.title, d.completed, d.inProgress, d.priority, d.effort, d.category, d.dueDate, createdAt)
  }

  /** `{ HIGH: 3, MEDIUM: 2, LOW: 1 }`. */
  function PriorityWeight(p: Priority): (w: int)
    ensures 1 <= w <= 3
  {
    match p
    case HIGH => 3
    case MEDIUM => 2
    case LOW => 1
  }

  lemma PriorityWeightInjective(p: Priority, q: Priority)
    ensures PriorityWeight(p) == PriorityWeight(q) <==> p == q
  {
  }

  predicate HasId(ts: seq<Task>, id: string) {
    exists i :: 0 <= i < |ts| && ts[i].id == id
  }

  /** No two tasks of the list share an id. */
  ghost predicate UniqueIds(ts: seq<Task>) {
    forall i, j :: 0 <= i < |ts| && 0 <= j < |ts| && ts[i].id == ts[j].id ==> i == j
  }

  /** `tasks.find(t => t.id === id)`: the first task with that id. */
  function Find(ts: seq<Task>, id: string): (r: Option<Task>)
    ensures r.None? <==> !HasId(ts, id)
    ensures r.Some? ==> r.value in ts && r.value.id == id
    ensures r.Some? ==> exists i :: 0 <= i < |ts| && ts[i] == r.value
                          && forall j :: 0 <= j < i ==> ts[j].id != id
  {
    if ts == [] then None
    else if ts[0].id == id then Some(ts[0])
    else
      var r := Find(ts[1..], id);
      assert r.Some? ==> exists i :: 1 <= i < |ts| && ts[i] == r.value
                            && forall j :: 1 <= j < i ==> ts[j].id != id by {
        if r.Some? {
          var i :| 0 <= i < |ts[1..]| && ts[1..][i] == r.value
                   && forall j :: 0 <= j < i ==> ts[1..][j].id != id;
          assert ts[i + 1] == r.value;
          forall j | 1 <= j < i + 1 ensures ts[j].id != id {
            assert ts[j] == ts[1..][j - 1];
          }
        }
      }
      assert HasId(ts, id) ==> HasId(ts[1..], id) by {
        if HasId(ts, id) {
          var i :| 0 <= i < |ts| && ts[i].id == id;
          assert ts[1..][i - 1].id == id;
        }
      }
      r
  }

  /** With unique ids, the task found for an id is the only one carrying it. */
  lemma FindUnique(ts: seq<Task>, k: int)
    requires UniqueIds(ts) && 0 <= k < |ts|
    ensures Find(ts, ts[k].id) == Some(ts[k])
  {
    var r := Find(ts, ts[k].id);
    var i :| 0 <= i < |ts| && ts[i] == r.value && forall j :: 0 <= j < i ==> ts[j].id != ts[k].id;
  }
}
