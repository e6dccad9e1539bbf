/**
 * The timeline (src/components/TimelineView.tsx): a copy of the tasks in
 * due-time order with undated tasks last, and a date header wherever the due
 * calendar day changes.
 *
 * The comparator answers 1 for two undated tasks in both argument orders, so
 * it is not a consistent order there and the engine's result is not fixed by
 * it; the model keeps undated tasks in their input order, as an insertion
 * sort that moves an element left only on a negative answer does.
 */
module TimelineView {
  import opened Dates
  import opened Types
  import opened StableSort

  function DueKey(t: Task): Key {
    (if t.dueDate.Some? then 0 else 1, if t.dueDate.Some? then Millis(t.dueDate.value) else 0, 0)
  }

  /** The timeline comparator. */
  function DueCompare(a: Task, b: Task): int {
    if a.dueDate.None? then 1
    else if b.dueDate.None? then -1
    else Millis(a.dueDate.value) - Millis(b.dueDate.value)
  }

  /** Wherever at least one task is dated, the comparator and the key agree. */
  lemma DueCompareAgreesWithKey(a: Task, b: Task)
    requires a.dueDate.Some? || b.dueDate.Some?
    ensures DueCompare(a, b) < 0 <==> KeyLess(DueKey(a), DueKey(b))
    ensures DueCompare(a, b) == 0 <==> DueKey(a) == DueKey(b)
  {
  }

  /** For two undated tasks the comparator claims each is greater than the other. */
  lemma DueCompareUndatedInconsistent(a: Task, b: Task)
    requires a.dueDate.None? && b.dueDate.None?
    ensures DueCompare(a, b) > 0 && DueCompare(b, a) > 0
  {
  }

  function Timeline(ts: seq<Task>): (r: seq<Task>)
    ensures multiset(r) == multiset(ts)
    ensures forall i, j :: 0 <= i < j < |r| && r[j].dueDate.Some? ==> r[i].dueDate.Some?
    ensures forall i, j :: 0 <= i < j < |r| && r[j].dueDate.Some? ==>
              Millis(r[i].dueDate.value) <= Millis(r[j].dueDate.value)
  {
    var r := SortBy(ts, DueKey);
    assert forall i, j :: 0 <= i < j < |r| ==> !KeyLess(DueKey(r[j]), DueKey(r[i]));
    r
  }

  /** Undated tasks keep their relative order, and so do tasks due at the same instant. */
  lemma TimelineStable(ts: seq<Task>, k: Key)
    ensures Class(Timeline(ts), DueKey, k) == Class(ts, DueKey, k)
  {
    SortByStable(ts, DueKey, k);
  }

  /** The calendar day of a task's due date (`toDateString()`), None when undated. */
  function DueDay(t: Task): Option<int> {
    if t.dueDate.Some? then Some(EpochDay(t.dueDate.value.day)) else None
  }

  /** The header rule: the first row, and every row whose due day differs from the previous row's. */
  predicate ShowHeader(r: seq<Task>, i: int)
    requires 0 <= i < |r|
  {
    i == 0 || DueDay(r[i]) != DueDay(r[i - 1])
  }

  /** A header names a calendar day by its day number, or reads "No Date". */
  datatype Header = DayHeader(epochDay: int) | NoDateHeader

  /** The header text: the (normalised) due day, or "No Date". */
  function HeaderOf(t: Task): (h: Header)
    ensures h == NoDateHeader <==> t.dueDate.None?
    ensures h.DayHeader? ==> DueDay(t) == Some(h.epochDay)
  {
    if t.dueDate.Some? then DayHeader(EpochDay(t.dueDate.value.day)) else NoDateHeader
  }

  /** Two rows read the same header exactly when the header rule sees the same due day. */
  lemma SameHeaderIffSameDay(a: Task, b: Task)
    ensures HeaderOf(a) == HeaderOf(b) <==> DueDay(a) == DueDay(b)
  {
  }

  const NoDateText := "No Date"

  /** In the timeline at most one row carries the "No Date" header. */
  lemma AtMostOneNoDateHeader(ts: seq<Task>, i: int, j: int)
    requires 0 <= i < j < |Timeline(ts)|
    requires Timeline(ts)[i].dueDate.None? && Timeline(ts)[j].dueDate.None?
    ensures !ShowHeader(Timeline(ts), j)
  {
  }

  /** Due instants with a valid time of day: their day numbers follow their time order. */
  lemma MillisOrdersDays(a: Instant, b: Instant)
    requires 0 <= a.msOfDay < MsPerDay && 0 <= b.msOfDay < MsPerDay
    requires Millis(a) <= Millis(b)
    ensures EpochDay(a.day) <= EpochDay(b.day)
  {
  }

  predicate ValidTimes(ts: seq<Task>) {
    forall t :: t in ts && t.dueDate.Some? ==> 0 <= t.dueDate.value.msOfDay < MsPerDay
  }

  /**
   * Each due day is headed once: a dated row that shares its day with an
   * earlier row gets no header of its own.
   */
  lemma OneHeaderPerDay(ts: seq<Task>, i: int, j: int)
    requires ValidTimes(ts)
    requires 0 <= i < j < |Timeline(ts)|
    requires Timeline(ts)[j].dueDate.Some? && DueDay(Timeline(ts)[i]) == DueDay(Timeline(ts)[j])
    ensures !ShowHeader(Timeline(ts), j)
  {
    var r := Timeline(ts);
    assert r[i] in multiset(ts) && r[j - 1] in multiset(ts) && r[j] in multiset(ts);
    MillisOrdersDays(r[i].dueDate.value, r[j - 1].dueDate.value);
    MillisOrdersDays(r[j - 1].dueDate.value, r[j].dueDate.value);
  }
}
