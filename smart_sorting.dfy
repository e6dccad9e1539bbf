/**
 * The display order chosen by cognitive load (src/hooks/useSmartSorting.ts):
 * a copy of the list sorted by effort under PANIC, by priority and due time
 * under HIGH, and newest first otherwise. Each comparator is mirrored by a
 * function and shown to agree with the sort key used.
 */
module SmartSorting {
  import opened Dates
  import opened Types
  import opened StableSort

  /** PANIC: effort ascending. */
  function EffortKey(t: Task): Key { (t.effort, 0, 0) }

  /** HIGH: priority weight descending, then dated before undated, then due time ascending. */
  function UrgencyKey(t: Task): Key {
    (-PriorityWeight(t.priority),
     if t.dueDate.Some? then 0 else 1,
     if t.dueDate.Some? then Millis(t.dueDate.value) else 0)
  }

  /** Any other load: creation time descending. */
  function RecencyKey(t: Task): Key { (-t.createdAt, 0, 0) }

  function SmartKey(load: CognitiveLoad): Task -> Key {
    match load
    case Panic => EffortKey
    case HighLoad => UrgencyKey
    case LowLoad => RecencyKey
  }

  /** The comparator each load passes to `sort`. */
  function SmartCompare(load: CognitiveLoad, a: Task, b: Task): int {
    match load
    case Panic => a.effort - b.effort
    case HighLoad =>
      var diff := PriorityWeight(b.priority) - PriorityWeight(a.priority);
      if diff != 0 then diff
      else if a.dueDate.Some? && b.dueDate.Some? then Millis(a.dueDate.value) - Millis(b.dueDate.value)
      else if a.dueDate.Some? then -1
      else if b.dueDate.Some? then 1
      else 0
    case LowLoad => b.createdAt - a.createdAt
  }

  /** Each comparator orders two tasks exactly as its key does. */
  lemma SmartCompareAgreesWithKey(load: CognitiveLoad, a: Task, b: Task)
    ensures SmartCompare(load, a, b) < 0 <==> KeyLess(SmartKey(load)(a), SmartKey(load)(b))
    ensures SmartCompare(load, a, b) == 0 <==> SmartKey(load)(a) == SmartKey(load)(b)
  {
  }

  /** `useSmartSorting`: a sorted copy; the input sequence itself is a value and is untouched. */
  function SmartSort(ts: seq<Task>, load: CognitiveLoad): (r: seq<Task>)
    ensures multiset(r) == multiset(ts)
    ensures load == Panic ==> forall i, j :: 0 <= i < j < |r| ==> r[i].effort <= r[j].effort
    ensures load == HighLoad ==> forall i, j :: 0 <= i < j < |r| ==>
              PriorityWeight(r[i].priority) >= PriorityWeight(r[j].priority)
    ensures load == HighLoad ==> forall i, j :: 0 <= i < j < |r| && r[i].priority == r[j].priority ==>
              (r[j].dueDate.Some? ==> r[i].dueDate.Some? && Millis(r[i].dueDate.value) <= Millis(r[j].dueDate.value))
    ensures load == LowLoad ==> forall i, j :: 0 <= i < j < |r| ==> r[i].createdAt >= r[j].createdAt
  {
    var r := SortBy(ts, SmartKey(load));
    assert forall i, j :: 0 <= i < j < |r| ==> !KeyLess(SmartKey(load)(r[j]), SmartKey(load)(r[i]));
    r
  }

  /** All three orders are stable: tasks the comparator calls equal keep their input order. */
  lemma SmartSortStable(ts: seq<Task>, load: CognitiveLoad, k: Key)
    ensures Class(SmartSort(ts, load), SmartKey(load), k) == Class(ts, SmartKey(load), k)
  {
    SortByStable(ts, SmartKey(load), k);
  }

  /** Under PANIC, efforts [30, 5, 15] come out as [5, 15, 30]. */
  lemma PanicQuickWinsExample(a: Task, b: Task, c: Task)
    requires a.effort == 30 && b.effort == 5 && c.effort == 15
    ensures SmartSort([a, b, c], Panic) == [b, c, a]
  {
    var r := SmartSort([a, b, c], Panic);
    assert multiset(r) == multiset{a, b, c};
    assert |r| == 3 by {
      assert |multiset(r)| == 3;
    }
    assert r[0] in multiset(r) && r[1] in multiset(r) && r[2] in multiset(r);
    assert r[0].effort <= r[1].effort <= r[2].effort;
    assert r == [r[0], r[1], r[2]];
    assert b in multiset(r) && a in multiset(r);
  }
}
