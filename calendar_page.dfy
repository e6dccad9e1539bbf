/**
 * The calendar page (src/app/calendar/page.tsx): a month grid that starts
 * with blank cells up to the weekday of the 1st, month navigation, the list
 * of tasks due on the selected day, and a marker on days that have tasks.
 *
 * `getFullYear`/`getMonth`/`getDate` of a `Date` are its normalised
 * components; two dates agree on all three exactly when they fall on the
 * same day number (`Dates.SameDayIffSameDate`), which is how due dates are
 * compared here.
 */
module CalendarPage {
  import opened Dates
  import opened Types
  import opened TaskSeq

  /** `new Date(year, month + 1, 0).getDate()`: the length of the displayed month. */
  function Days(v: Date): (n: int)
    requires 1 <= v.month <= 12
    ensures 28 <= n <= 31
    ensures EpochDay(Date(v.year, v.month + 1, 0)) == EpochDay(Date(v.year, v.month, n))
  {
    DayZeroIsLastDay(v.year, v.month);
    DaysInMonth(v.year, v.month)
  }

  /** `new Date(year, month, 1).getDay()`. */
  function FirstDay(v: Date): (w: int)
    ensures 0 <= w < 7
  {
    Weekday(Date(v.year, v.month, 1))
  }

  /** The grid cells: `firstDay` blanks, then the days 1..days. */
  function Grid(v: Date): (g: seq<Option<int>>)
    requires 1 <= v.month <= 12
    ensures |g| == FirstDay(v) + Days(v)
    ensures forall i :: 0 <= i < FirstDay(v) ==> g[i] == None
    ensures forall d :: 1 <= d <= Days(v) ==> g[FirstDay(v) + d - 1] == Some(d)
  {
    seq(FirstDay(v), i => None) + seq(Days(v), i => Some(i + 1))
  }

  /** In a seven-column grid, each day of the month lands in its weekday's column. */
  lemma GridColumnIsWeekday(v: Date, d: int)
    requires 1 <= v.month <= 12 && 1 <= d <= Days(v)
    ensures (FirstDay(v) + d - 1) % 7 == Weekday(Date(v.year, v.month, d))
  {
    var e1 := EpochDay(Date(v.year, v.month, 1));
    var ed := EpochDay(Date(v.year, v.month, d));
    SameMonthOrder(Date(v.year, v.month, d), Date(v.year, v.month, 1));
    assert ed == e1 + d - 1;
    ShiftMod7(e1 + 4, d - 1);
    assert FirstDay(v) == (e1 + 4) % 7;
    assert Weekday(Date(v.year, v.month, d)) == (ed + 4) % 7;
  }

  /** The 1st of a possibly out-of-range month, written with in-range components. */
  lemma Normalised(y: int, m: int)
    ensures ValidDate(Date(NormalYear(y, m), NormalMonth(m), 1))
    ensures EpochDay(Date(NormalYear(y, m), NormalMonth(m), 1)) == EpochDay(Date(y, m, 1))
  {
    var y2, m2 := NormalYear(y, m), NormalMonth(m);
    assert NormalYear(y2, m2) == y2 && NormalMonth(m2) == m2;
  }

  /** `nextMonth`: `new Date(year, month + 1, 1)`, the 1st of the following month. */
  function NextMonth(v: Date): (r: Date)
    requires 1 <= v.month <= 12
    ensures ValidDate(r) && r.day == 1
    ensures EpochDay(r) == EpochDay(Date(v.year, v.month + 1, 1))
  {
    Normalised(v.year, v.month + 1);
    Date(NormalYear(v.year, v.month + 1), NormalMonth(v.month + 1), 1)
  }

  /** `prevMonth`: `new Date(year, month - 1, 1)`, the 1st of the preceding month. */
  function PrevMonth(v: Date): (r: Date)
    requires 1 <= v.month <= 12
    ensures ValidDate(r) && r.day == 1
    ensures EpochDay(r) == EpochDay(Date(v.year, v.month - 1, 1))
  {
    Normalised(v.year, v.month - 1);
    Date(NormalYear(v.year, v.month - 1), NormalMonth(v.month - 1), 1)
  }

  /** The following month starts as many days after this one as this month is long. */
  lemma NextMonthIsAdjacent(v: Date)
    requires 1 <= v.month <= 12
    ensures EpochDay(NextMonth(v)) == EpochDay(Date(v.year, v.month, 1)) + DaysInMonth(v.year, v.month)
  {
    var n := NextMonth(v);
    assert EpochDay(n) == EpochDay(Date(v.year, v.month + 1, 1));
    NextMonthStart(v.year, v.month);
  }

  /** Going back after going forward returns to the 1st of the original month. */
  lemma PrevAfterNext(v: Date)
    requires 1 <= v.month <= 12
    ensures PrevMonth(NextMonth(v)) == Date(v.year, v.month, 1)
  {
  }

  /** Going forward after going back returns to the 1st of the original month. */
  lemma NextAfterPrev(v: Date)
    requires 1 <= v.month <= 12
    ensures NextMonth(PrevMonth(v)) == Date(v.year, v.month, 1)
  {
  }

  /** A task is due on day `d` when its due instant falls on that calendar day. */
  predicate DueOn(t: Task, d: Date) {
    t.dueDate.Some? && EpochDay(t.dueDate.value.day) == EpochDay(d)
  }

  /** `selectedTasks`: the tasks due on the selected day, in list order. */
  function SelectedTasks(ts: seq<Task>, selected: Date): (r: seq<Task>)
    ensures forall t :: t in r <==> t in ts && t.dueDate.Some? && EpochDay(t.dueDate.value.day) == EpochDay(selected)
  {
    Filter(ts, (t: Task) => DueOn(t, selected))
  }

  /** `hasTasks` for day `day` of the displayed month. */
  predicate HasTasks(ts: seq<Task>, v: Date, day: int) {
    exists t :: t in ts && DueOn(t, Date(v.year, v.month, day))
  }

  predicate IsSelected(v: Date, selected: Date, day: int) {
    Date(v.year, v.month, day) == selected
  }

  /** A day shows the marker when it has tasks and is not the selected one. */
  predicate ShowsMarker(ts: seq<Task>, v: Date, selected: Date, day: int) {
    HasTasks(ts, v, day) && !IsSelected(v, selected, day)
  }

  /** A day has a marker exactly when selecting it would list some task. */
  lemma MarkerMatchesList(ts: seq<Task>, v: Date, day: int)
    ensures HasTasks(ts, v, day) <==> |SelectedTasks(ts, Date(v.year, v.month, day))| > 0
  {
    var r := SelectedTasks(ts, Date(v.year, v.month, day));
    assert |r| > 0 ==> r[0] in r;
  }

  /** An undated task is never listed. */
  lemma UndatedNeverListed(ts: seq<Task>, selected: Date, t: Task)
    requires t.dueDate.None?
    ensures t !in SelectedTasks(ts, selected)
  {
  }

  class CalendarView {
    /** `currentDate`: the displayed month is its month. */
    var current: Date
    var selected: Date

    ghost predicate Valid()
      reads this
    {
      ValidDate(current) && ValidDate(selected)
    }

    /** Both start at today's date. */
    constructor(today: Date)
      requires ValidDate(today)
      ensures Valid() && current == today && selected == today
    {
      current := today;
      selected := today;
    }

    method Next()
      requires Valid()
      modifies this
      ensures Valid() && current == NextMonth(old(current)) && selected == old(selected)
    {
      current := NextMonth(current);
    }

    method Prev()
      requires Valid()
      modifies this
      ensures Valid() && current == PrevMonth(old(current)) && selected == old(selected)
    {
      current := PrevMonth(current);
    }

    /** Clicking day `day` of the displayed month. */
    method Select(day: int)
      requires Valid() && 1 <= day <= Days(current)
      modifies this
      ensures Valid() && selected == Date(old(current).year, old(current).month, day) && current == old(current)
    {
      selected := Date(current.year, current.month, day);
    }
  }
}
