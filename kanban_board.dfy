/**
 * The board (src/components/KanbanBoard.tsx): a drop moves a task between
 * the backlog, in-progress and done columns by calling `toggleTask` and
 * `setTaskInProgress` on the session, according to the task as it was when
 * the drop happened. The columns themselves are `Workload.Backlog`,
 * `Workload.InProgressOf` and `Workload.Done`.
 */
module KanbanBoard {
  import opened Types
  import opened TaskStore
  import opened Mastery
  import opened UserContext

  /** One store call of a drop. */
  datatype Move = ToggleMove | ProgressMove(flag: bool)

  /** The drop targets: the three column ids, and anything else. */
  datatype Column = BacklogColumn | InProgressColumn | DoneColumn | Elsewhere

  /** The column whose droppable id is `target`. */
  function ColumnOf(target: string): (c: Column)
    ensures c == BacklogColumn <==> target == "backlog"
    ensures c == InProgressColumn <==> target == "inprogress"
    ensures c == DoneColumn <==> target == "done"
  {
    if target == "backlog" then BacklogColumn
    else if target == "inprogress" then InProgressColumn
    else if target == "done" then DoneColumn
    else Elsewhere
  }

  /** The calls `handleDragEnd` makes for a task dropped on column `c`. */
  function Moves(t: Task, c: Column): seq<Move> {
    match c
    case BacklogColumn =>
      (if t.completed then [ToggleMove] else []) + (if t.inProgress then [ProgressMove(false)] else [])
    case InProgressColumn =>
      (if t.completed then [ToggleMove] else []) + [ProgressMove(true)]
    case DoneColumn =>
      (if !t.completed then [ToggleMove] else [])
    case Elsewhere => []
  }

  function ApplyMove(st: SessionState, id: string, m: Move): SessionState {
    match m
    case ToggleMove => Toggled(st, id)
    case ProgressMove(b) => InProgressSet(st, id, b)
  }

  function ApplyMoves(st: SessionState, id: string, ms: seq<Move>): SessionState
    decreases |ms|
  {
    if ms == [] then st else ApplyMoves(ApplyMove(st, id, ms[0]), id, ms[1..])
  }

  /** The session state after dropping task `id` over `over` (None: outside every column). */
  function Drop(st: SessionState, id: string, over: Option<string>): SessionState {
    if over.None? then st
    else
      var f := Find(st.tasks, id);
      if f.None? then st else ApplyMoves(st, id, Moves(f.value, ColumnOf(over.value)))
  }

  /** A drop outside every column, or of an id no task has, changes nothing. */
  lemma DropWithoutEffect(st: SessionState, id: string, over: Option<string>)
    requires over.None? || !HasId(st.tasks, id)
    ensures Drop(st, id, over) == st
  {
  }

  lemma ApplyMovesSnoc(st: SessionState, id: string, ms: seq<Move>, m: Move)
    ensures ApplyMoves(st, id, ms + [m]) == ApplyMove(ApplyMoves(st, id, ms), id, m)
    decreases |ms|
  {
    if ms != [] {
      assert (ms + [m])[1..] == ms[1..] + [m];
      ApplyMovesSnoc(ApplyMove(st, id, ms[0]), id, ms[1..], m);
    }
  }

  /** `x` is in the list and is the only task there with id `id`. */
  predicate OnlyCopy(ts: seq<Task>, id: string, x: Task) {
    x.id == id && x in ts && forall t :: t in ts && t.id == id ==> t == x
  }

  lemma UniqueCopy(ts: seq<Task>, k: int)
    requires UniqueIds(ts) && 0 <= k < |ts|
    ensures OnlyCopy(ts, ts[k].id, ts[k])
  {
    forall t | t in ts && t.id == ts[k].id ensures t == ts[k] {
      var j :| 0 <= j < |ts| && ts[j] == t;
    }
  }

  lemma ProgressCopy(ts: seq<Task>, id: string, x: Task, flag: bool)
    requires OnlyCopy(ts, id, x)
    ensures OnlyCopy(SetInProgress(ts, id, flag), id, x.(inProgress := flag, completed := false))
  {
    var r := SetInProgress(ts, id, flag);
    var i :| 0 <= i < |ts| && ts[i] == x;
    assert r[i] in r;
    forall t | t in r && t.id == id ensures t == x.(inProgress := flag, completed := false) {
      var j :| 0 <= j < |r| && r[j] == t;
      assert ts[j] in ts;
    }
  }

  /** The first call of a move out of done: un-complete the task if it is completed. */
  lemma Uncomplete(st: SessionState, k: int)
    requires UniqueIds(st.tasks) && 0 <= k < |st.tasks|
    ensures OnlyCopy(ApplyMoves(st, st.tasks[k].id, if st.tasks[k].completed then [ToggleMove] else []).tasks,
                     st.tasks[k].id, st.tasks[k].(completed := false))
  {
    var ts, id, x := st.tasks, st.tasks[k].id, st.tasks[k];
    if x.completed {
      ToggleUnique(ts, k);
      assert ApplyMoves(st, id, [ToggleMove]) == Toggled(st, id);
    } else {
      UniqueCopy(ts, k);
      assert x.(completed := false) == x;
    }
  }

  /**
   * Backlog: with unique ids, the dropped task ends with `completed` and
   * `inProgress` both false and its other fields unchanged; it is the only
   * task with that id.
   */
  lemma DropOnBacklog(st: SessionState, k: int)
    requires UniqueIds(st.tasks) && 0 <= k < |st.tasks|
    ensures OnlyCopy(Drop(st, st.tasks[k].id, Some("backlog")).tasks, st.tasks[k].id,
                     st.tasks[k].(completed := false, inProgress := false))
  {
    var ts, id, x := st.tasks, st.tasks[k].id, st.tasks[k];
    FindUnique(ts, k);
    assert Drop(st, id, Some("backlog")) == ApplyMoves(st, id, Moves(x, BacklogColumn));
    var first := if x.completed then [ToggleMove] else [];
    var st1 := ApplyMoves(st, id, first);
    Uncomplete(st, k);
    if x.inProgress {
      ApplyMovesSnoc(st, id, first, ProgressMove(false));
      ProgressCopy(st1.tasks, id, x.(completed := false), false);
    } else {
      assert first + [] == first;
    }
  }

  /** In progress: the dropped task ends in progress and not completed, otherwise unchanged. */
  lemma DropOnInProgress(st: SessionState, k: int)
    requires UniqueIds(st.tasks) && 0 <= k < |st.tasks|
    ensures OnlyCopy(Drop(st, st.tasks[k].id, Some("inprogress")).tasks, st.tasks[k].id,
                     st.tasks[k].(completed := false, inProgress := true))
  {
    var ts, id, x := st.tasks, st.tasks[k].id, st.tasks[k];
    FindUnique(ts, k);
    assert Drop(st, id, Some("inprogress")) == ApplyMoves(st, id, Moves(x, InProgressColumn));
    var first := if x.completed then [ToggleMove] else [];
    var st1 := ApplyMoves(st, id, first);
    Uncomplete(st, k);
    ApplyMovesSnoc(st, id, first, ProgressMove(true));
    ProgressCopy(st1.tasks, id, x.(completed := false), true);
  }

  /**
   * Done: the dropped task ends completed, otherwise unchanged; the score
   * gets one capped bump and the completion count one more exactly when the
   * task was not completed before.
   */
  lemma DropOnDone(st: SessionState, k: int)
    requires UniqueIds(st.tasks) && 0 <= k < |st.tasks|
    ensures var r := Drop(st, st.tasks[k].id, Some("done"));
            OnlyCopy(r.tasks, st.tasks[k].id, st.tasks[k].(completed := true))
            && r.masteryScore == (if st.tasks[k].completed then st.masteryScore else CompletionBump(st.masteryScore))
            && r.metrics.tasksCompleted == st.metrics.tasksCompleted + (if st.tasks[k].completed then 0 else 1)
  {
    var ts, id, x := st.tasks, st.tasks[k].id, st.tasks[k];
    FindUnique(ts, k);
    assert Drop(st, id, Some("done")) == ApplyMoves(st, id, Moves(x, DoneColumn));
    if x.completed {
      UniqueCopy(ts, k);
      assert x.(completed := true) == x;
    } else {
      ToggleUnique(ts, k);
      ToggleScore(ts, k, st.masteryScore);
      assert ApplyMoves(st, id, [ToggleMove]) == Toggled(st, id);
    }
  }

  /**
   * Moving a completed task out of the done column un-completes it through
   * `toggleTask`, which leaves the score and the completion count as they were.
   */
  lemma MoveOutOfDoneKeepsScore(st: SessionState, k: int, target: string)
    requires UniqueIds(st.tasks) && 0 <= k < |st.tasks| && st.tasks[k].completed
    requires target == "backlog" || target == "inprogress"
    ensures Drop(st, st.tasks[k].id, Some(target)).masteryScore == st.masteryScore
    ensures Drop(st, st.tasks[k].id, Some(target)).metrics == st.metrics
  {
    var ts, id, x := st.tasks, st.tasks[k].id, st.tasks[k];
    FindUnique(ts, k);
    ToggleScore(ts, k, st.masteryScore);
    var st1 := ApplyMoves(st, id, [ToggleMove]);
    assert st1 == Toggled(st, id);
    var ms := Moves(x, ColumnOf(target));
    assert Drop(st, id, Some(target)) == ApplyMoves(st, id, ms);
    if x.inProgress || target == "inprogress" {
      var flag := target == "inprogress";
      assert ms == [ToggleMove] + [ProgressMove(flag)];
      ApplyMovesSnoc(st, id, [ToggleMove], ProgressMove(flag));
    } else {
      assert ms == [ToggleMove];
    }
  }

  /** A drop changes no task with another id: each keeps its multiplicity. */
  lemma {:induction false} MovesKeepOthers(st: SessionState, id: string, ms: seq<Move>, t: Task)
    requires t.id != id
    ensures multiset(ApplyMoves(st, id, ms).tasks)[t] == multiset(st.tasks)[t]
    decreases |ms|
  {
    if ms != [] {
      var st1 := ApplyMove(st, id, ms[0]);
      match ms[0] {
        case ToggleMove => ToggleContents(st.tasks, id, t);
        case ProgressMove(b) => SetInProgressEffect(st.tasks, id, b);
      }
      MovesKeepOthers(st1, id, ms[1..], t);
    }
  }

  lemma DropKeepsOthers(st: SessionState, id: string, over: Option<string>, t: Task)
    requires t.id != id
    ensures multiset(Drop(st, id, over).tasks)[t] == multiset(st.tasks)[t]
  {
    var f := Find(st.tasks, id);
    if over.Some? && f.Some? {
      MovesKeepOthers(st, id, Moves(f.value, ColumnOf(over.value)), t);
    }
  }

  class Board {
    /** The id of the card being dragged, if any. */
    var activeId: Option<string>

    constructor()
      ensures activeId == None
    {
      activeId := None;
    }

    method HandleDragStart(id: string)
      modifies this
      ensures activeId == Some(id)
    {
      activeId := Some(id);
    }

    /** `handleDragEnd` for card `id` released over the column `over`. */
    method HandleDragEnd(s: Session, id: string, over: Option<string>)
      requires s.Valid()
      modifies this, s
      ensures s.Valid()
      ensures activeId == None
      ensures s.State() == Drop(old(s.State()), id, over)
    {
      if over.None? {
        activeId := None;
        return;
      }
      var target := over.value;
      var f := Find(s.tasks, id);
      if f.None? {
        activeId := None;
        return;
      }
      var task := f.value;
      if target == "backlog" {
        ReleaseOnBacklog(s, id, task);
      } else if target == "inprogress" {
        ReleaseOnInProgress(s, id, task);
      } else if target == "done" {
        ReleaseOnDone(s, id, task);
      }
      activeId := None;
    }
  }

  /** The backlog branch of `handleDragEnd`: un-complete, then take out of progress. */
  method ReleaseOnBacklog(s: Session, id: string, task: Task)
    requires s.Valid()
    modifies s
    ensures s.Valid()
    ensures s.State() == ApplyMoves(old(s.State()), id, Moves(task, BacklogColumn))
  {
    ghost var st := s.State();
    ghost var done: seq<Move> := [];
    if task.completed {
      s.ToggleTask(id);
      ApplyMovesSnoc(st, id, done, ToggleMove);
      done := done + [ToggleMove];
    }
    if task.inProgress {
      s.SetTaskInProgress(id, false);
      ApplyMovesSnoc(st, id, done, ProgressMove(false));
      done := done + [ProgressMove(false)];
    }
    assert done == Moves(task, BacklogColumn);
  }

  /** The in-progress branch: un-complete if needed, then mark in progress. */
  method ReleaseOnInProgress(s: Session, id: string, task: Task)
    requires s.Valid()
    modifies s
    ensures s.Valid()
    ensures s.State() == ApplyMoves(old(s.State()), id, Moves(task, InProgressColumn))
  {
    ghost var st := s.State();
    ghost var done: seq<Move> := [];
    if task.completed {
      s.ToggleTask(id);
      ApplyMovesSnoc(st, id, done, ToggleMove);
      done := done + [ToggleMove];
    }
    s.SetTaskInProgress(id, true);
    ApplyMovesSnoc(st, id, done, ProgressMove(true));
    done := done + [ProgressMove(true)];
    assert done == Moves(task, InProgressColumn);
  }

  /** The done branch: complete the task unless it already is. */
  method ReleaseOnDone(s: Session, id: string, task: Task)
    requires s.Valid()
    modifies s
    ensures s.Valid()
    ensures s.State() == ApplyMoves(old(s.State()), id, Moves(task, DoneColumn))
  {
    ghost var st := s.State();
    if !task.completed {
      s.ToggleTask(id);
      ApplyMovesSnoc(st, id, [], ToggleMove);
      assert [] + [ToggleMove] == [ToggleMove];
    }
  }
}
