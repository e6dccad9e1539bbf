/**
 * The counts the session derives from its task list: the three board
 * columns (src/components/KanbanBoard.tsx:57-59), the workload that the
 * proposal rule, the dismiss handler and the layout all recompute, and the
 * calendar-day overdue count (src/context/UserContext.tsx:73-83).
 */
module Workload {
  import opened Dates
  import opened Types
  import opened TaskSeq
  import opened TaskStore

  predicate InBacklog(t: Task) { !t.inProgress && !t.completed }
  predicate InProgress(t: Task) { t.inProgress && !t.completed }
  predicate IsDone(t: Task) { t.completed }

  function Backlog(ts: seq<Task>): seq<Task> { Filter(ts, InBacklog) }
  function InProgressOf(ts: seq<Task>): seq<Task> { Filter(ts, InProgress) }
  function Done(ts: seq<Task>): seq<Task> { Filter(ts, IsDone) }
  function Incomplete(ts: seq<Task>): seq<Task> { Filter(ts, (t: Task) => !t.completed) }

  /** `backlogCount + inProgressCount`. */
  function TotalWorkload(ts: seq<Task>): nat {
    |Backlog(ts)| + |InProgressOf(ts)|
  }

  /** The workload is the number of incomplete tasks. */
  lemma {:induction false} TotalWorkloadIsIncomplete(ts: seq<Task>)
    ensures TotalWorkload(ts) == |Incomplete(ts)|
  {
    if ts != [] {
      TotalWorkloadIsIncomplete(ts[1..]);
    }
  }

  /** Every task lies in exactly one column, and the column sizes add up to the list's. */
  lemma ColumnsPartition(ts: seq<Task>, t: Task)
    ensures t in ts <==> t in Backlog(ts) || t in InProgressOf(ts) || t in Done(ts)
    ensures !(t in Backlog(ts) && t in InProgressOf(ts))
    ensures !(t in Backlog(ts) && t in Done(ts))
    ensures !(t in InProgressOf(ts) && t in Done(ts))
    ensures |Backlog(ts)| + |InProgressOf(ts)| + |Done(ts)| == |ts|
  {
    TotalWorkloadIsIncomplete(ts);
    FilterSplit(ts, (t: Task) => !t.completed, IsDone);
  }

  /**
   * A task is overdue when it is incomplete, has a due date, and the local
   * calendar day of that date is strictly before today.
   */
  predicate IsOverdue(t: Task, today: Date) {
    !t.completed && t.dueDate.Some? && EpochDay(t.dueDate.value.day) < EpochDay(today)
  }

  function OverdueCount(ts: seq<Task>, today: Date): (n: nat)
    ensures n <= |Incomplete(ts)|
  {
    FilterMonotone(ts, (t: Task) => IsOverdue(t, today), (t: Task) => !t.completed);
    |Filter(ts, (t: Task) => IsOverdue(t, today))|
  }

  /** Overdue tasks are among the workload, so a positive overdue count means a positive workload. */
  lemma OverdueWithinWorkload(ts: seq<Task>, today: Date)
    ensures OverdueCount(ts, today) <= TotalWorkload(ts)
  {
    TotalWorkloadIsIncomplete(ts);
  }

  /**
   * Adding a task that is completed, undated, or due today or later leaves
   * the overdue count as it is; adding an incomplete task due before today
   * raises it by one.
   */
  lemma OverdueCountAppend(ts: seq<Task>, t: Task, today: Date)
    ensures OverdueCount(ts + [t], today) == OverdueCount(ts, today) + if IsOverdue(t, today) then 1 else 0
  {
    FilterAppend(ts, [t], (t: Task) => IsOverdue(t, today));
    assert [t][1..] == [];
  }

  /** A task due any time today is not overdue, however late the hour. */
  lemma DueTodayNotOverdue(t: Task, today: Date, ms: int)
    requires t.dueDate == Some(Instant(today, ms))
    ensures !IsOverdue(t, today)
  {
  }

  /** A task due on the previous calendar day (day 0 meaning the month's last) is overdue if incomplete. */
  lemma DueYesterdayOverdue(t: Task, today: Date, ms: int)
    requires !t.completed
    requires t.dueDate == Some(Instant(Date(today.year, today.month, today.day - 1), ms))
    ensures IsOverdue(t, today)
  {
    SameMonthOrder(Date(today.year, today.month, today.day - 1), today);
  }

  /** Examples: a task due 2024-06-14 is overdue on 2024-06-15, not on 2024-06-14. */
  lemma OverdueExample(t: Task)
    requires !t.completed && t.dueDate == Some(Instant(Date(2024, 6, 14), 82800000))
    ensures IsOverdue(t, Date(2024, 6, 15))
    ensures !IsOverdue(t, Date(2024, 6, 14))
  {
    DueYesterdayOverdue(t, Date(2024, 6, 15), 82800000);
    DueTodayNotOverdue(t, Date(2024, 6, 14), 82800000);
  }

  /** Re-sorting the list changes neither the workload nor the overdue count. */
  lemma SortKeepsCounts(ts: seq<Task>, today: Date)
    ensures TotalWorkload(SortTasks(ts)) == TotalWorkload(ts)
    ensures OverdueCount(SortTasks(ts), today) == OverdueCount(ts, today)
  {
    FilterCountPermutation(SortTasks(ts), ts, InBacklog);
    FilterCountPermutation(SortTasks(ts), ts, InProgress);
    FilterCountPermutation(SortTasks(ts), ts, (t: Task) => IsOverdue(t, today));
  }
}
