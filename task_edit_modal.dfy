/**
 * The task dialog (src/components/TaskEditModal.tsx). Its form fields start
 * from the task being edited, or from defaults for a new one; saving either
 * patches the edited task through `updateTask` or adds a new task through
 * `addTask`, and always closes the dialog. Which fields are shown depends on
 * the tier.
 *
 * The date input holds a calendar day or nothing; a chosen day is saved as
 * the start of that day.
 */
module TaskEditModal {
  import opened Dates
  import opened Types
  import opened TaskStore
  import opened UserContext

  const DefaultEffort := 15
  const NewTaskTitle := "New Task"

  datatype EditForm = EditForm(
    title: string,
    category: string,
    priority: Priority,
    effort: int,
    dueDate: Option<Date>)

  /** The initial field values: the task's, with "" / LOW / 15 / no date where it has none. */
  function InitialForm(task: Option<Task>): (f: EditForm)
    ensures task.None? ==> f == EditForm("", "", LOW, DefaultEffort, None)
    ensures task.Some? ==> f.title == task.value.title && f.priority == task.value.priority
    ensures task.Some? ==> (f.category == "" <==> task.value.category.None? || task.value.category.value == "")
    ensures task.Some? && task.value.category.Some? ==> f.category == task.value.category.value
    ensures task.Some? ==> f.effort != 0
    ensures task.Some? && task.value.effort != 0 ==> f.effort == task.value.effort
    ensures task.Some? ==> (f.dueDate.Some? <==> task.value.dueDate.Some?)
  {
    match task
    case None => EditForm("", "", LOW, DefaultEffort, None)
    case Some(t) =>
      EditForm(t.title,
               if t.category.Some? then t.category.value else "",
               t.priority,
               if t.effort == 0 then DefaultEffort else t.effort,
               if t.dueDate.Some? then Some(t.dueDate.value.day) else None)
  }

  /** `dueDate ? new Date(dueDate) : undefined`. */
  function SavedDue(d: Option<Date>): (r: Option<Instant>)
    ensures r.Some? <==> d.Some?
    ensures r.Some? ==> r.value.day == d.value && r.value.msOfDay == 0
  {
    if d.Some? then Some(Instant(d.value, 0)) else None
  }

  /** The five keys the update path passes to `updateTask`. */
  function PatchOf(f: EditForm): (p: TaskPatch)
    ensures p.title == f.title && p.category == Some(f.category)
    ensures p.priority == f.priority && p.effort == f.effort && p.dueDate == SavedDue(f.dueDate)
  {
    TaskPatch(f.title, Some(f.category), f.priority, f.effort, SavedDue(f.dueDate))
  }

  /** The task the add path passes to `addTask`: never untitled, never completed. */
  function NewDraft(f: EditForm): (d: TaskDraft)
    ensures d.title != "" && (f.title != "" ==> d.title == f.title)
    ensures !d.completed && !d.inProgress
    ensures d.category == Some(f.category) && d.priority == f.priority && d.effort == f.effort
    ensures d.dueDate == SavedDue(f.dueDate)
  {
    TaskDraft(if f.title == "" then NewTaskTitle else f.title, false, false, f.priority, f.effort,
              Some(f.category), SavedDue(f.dueDate))
  }

  /**
   * Opening a task and saving without changes gives the task back, provided
   * it has a category, a non-zero effort and a due time at the start of a day.
   */
  lemma SaveUnchangedRestores(t: Task)
    requires t.category.Some? && t.effort != 0
    requires t.dueDate.Some? ==> t.dueDate.value.msOfDay == 0
    ensures ApplyEdit(t, Patch(PatchOf(InitialForm(Some(t))))) == t
  {
  }

  /** Saving an uncategorised task unchanged gives it the empty category. */
  lemma UncategorisedGainsEmptyCategory(t: Task)
    requires t.category.None?
    ensures ApplyEdit(t, Patch(PatchOf(InitialForm(Some(t))))).category == Some("")
  {
  }

  /**
   * The update path stores the form's fields on the edited task, an empty
   * title included.
   */
  lemma UpdateStoresForm(ts: seq<Task>, k: int, f: EditForm)
    requires 0 <= k < |ts|
    ensures ts[k].(title := f.title, category := Some(f.category), priority := f.priority,
                   effort := f.effort, dueDate := SavedDue(f.dueDate))
            in UpdateTasks(ts, ts[k].id, PatchOf(f))
  {
    var e := EditTasks(ts, ts[k].id, Patch(PatchOf(f)));
    assert e[k] in multiset(e);
  }

  /**
   * In BEGINNER mode only the title can be edited, so a new task is saved
   * with the default category, priority, effort and no due date.
   */
  lemma BeginnerNewTask(title: string)
    ensures NewDraft(InitialForm(None).(title := title)) ==
            TaskDraft(if title == "" then NewTaskTitle else title, false, false, LOW, DefaultEffort, Some(""), None)
  {
  }

  /** The date and category inputs are shown from INTERMEDIATE up. */
  predicate ShowsDateAndCategory(mode: UserMode) {
    mode != BEGINNER
  }

  /** The priority and effort inputs are shown only in EXPERIENCED mode. */
  predicate ShowsPriorityAndEffort(mode: UserMode) {
    mode == EXPERIENCED
  }

  class TaskEditor {
    /** The task being edited; None for a new task. */
    const task: Option<Task>
    var form: EditForm
    /** Whether the dialog is open (`onClose` clears it). */
    var isOpen: bool

    constructor(task: Option<Task>)
      ensures this.task == task && form == InitialForm(task) && isOpen
    {
      this.task := task;
      form := InitialForm(task);
      isOpen := true;
    }

    method SetTitle(title: string)
      modifies this
      ensures form == old(form).(title := title) && isOpen == old(isOpen)
    {
      form := form.(title := title);
    }

    method SetDueDate(mode: UserMode, d: Option<Date>)
      requires ShowsDateAndCategory(mode)
      modifies this
      ensures form == old(form).(dueDate := d) && isOpen == old(isOpen)
    {
      form := form.(dueDate := d);
    }

    method SetCategory(mode: UserMode, category: string)
      requires ShowsDateAndCategory(mode)
      modifies this
      ensures form == old(form).(category := category) && isOpen == old(isOpen)
    {
      form := form.(category := category);
    }

    method SetPriority(mode: UserMode, p: Priority)
      requires ShowsPriorityAndEffort(mode)
      modifies this
      ensures form == old(form).(priority := p) && isOpen == old(isOpen)
    {
      form := form.(priority := p);
    }

    method SetEffort(mode: UserMode, effort: int)
      requires ShowsPriorityAndEffort(mode)
      modifies this
      ensures form == old(form).(effort := effort) && isOpen == old(isOpen)
    {
      form := form.(effort := effort);
    }

    /**
     * `handleSave`: patch the edited task, or add a new one with the given
     * fresh id and creation time; then close.
     */
    method Save(s: Session, freshId: string, createdAt: int)
      requires s.Valid()
      modifies this, s
      ensures s.Valid()
      ensures task.Some? ==>
                s.State() == old(s.State()).(tasks := UpdateTasks(old(s.tasks), task.value.id, PatchOf(old(form))))
      ensures task.None? ==>
                s.State() == old(s.State()).(tasks := AddTasks(old(s.tasks), Materialize(NewDraft(old(form)), freshId, createdAt)))
      ensures form == old(form) && !isOpen
    {
      if task.Some? {
        s.UpdateTask(task.value.id, PatchOf(form));
      } else {
        s.AddTask(NewDraft(form), freshId, createdAt);
      }
      isOpen := false;
    }
  }
}
