/**
 * The list view (src/components/TaskList.tsx): which tasks are visible, and
 * the focus-mode effect that pulls the next backlog tasks into progress when
 * nothing is left in progress. The effect's `previousVisibleTasksRef` is the
 * field of `FocusList`; its calls to `setTaskInProgress` go to the session.
 */
module TaskList {
  import opened Types
  import opened TaskSeq
  import opened TaskStore
  import opened Workload
  import opened SmartSorting
  import opened UserContext

  /** The visible list: the smart-sorted tasks, narrowed under PANIC to those in progress. */
  function VisibleTasks(ts: seq<Task>, load: CognitiveLoad): (r: seq<Task>)
    ensures load != Panic ==> r == SmartSort(ts, load)
    ensures load == Panic ==> forall t :: t in r <==> t in ts && InProgress(t)
    ensures load == Panic ==> forall i, j :: 0 <= i < j < |r| ==> r[i].effort <= r[j].effort
    ensures load == Panic ==> r == Filter(SmartSort(ts, Panic), InProgress)
  {
    if load == Panic then
      var s := SmartSort(ts, Panic);
      var r := Filter(s, InProgress);
      assert forall t :: t in s <==> t in multiset(ts);
      FilterPairwise(s, InProgress, (a: Task, b: Task) => a.effort <= b.effort);
      r
    else SmartSort(ts, load)
  }

  /** `setTaskInProgress(id, true)` for each id in turn, as the queued updates apply them. */
  function PromoteAll(ts: seq<Task>, ids: seq<string>): seq<Task>
    decreases |ids|
  {
    if ids == [] then ts
    else SetInProgress(PromoteAll(ts, ids[..|ids| - 1]), ids[|ids| - 1], true)
  }

  /** Promoting a list of ids marks exactly the tasks carrying one of them, and leaves the rest. */
  lemma {:induction false} PromoteAllPointwise(ts: seq<Task>, ids: seq<string>)
    ensures |PromoteAll(ts, ids)| == |ts|
    ensures forall i :: 0 <= i < |ts| ==>
              PromoteAll(ts, ids)[i] == (if ts[i].id in ids then ts[i].(inProgress := true, completed := false) else ts[i])
    decreases |ids|
  {
    if ids != [] {
      var init := ids[..|ids| - 1];
      PromoteAllPointwise(ts, init);
      forall i | 0 <= i < |ts|
        ensures ts[i].id in ids <==> ts[i].id in init || ts[i].id == ids[|ids| - 1]
      {
        assert ids == init + [ids[|ids| - 1]];
      }
    }
  }

  /** The refill: the ids of the first three backlog tasks, in store order. */
  function RefillIds(ts: seq<Task>): (r: seq<string>)
    ensures |r| == if |Backlog(ts)| < 3 then |Backlog(ts)| else 3
  {
    Ids(Take(Backlog(ts), 3))
  }

  /** `every(id => tasks.find(t => t.id === id)?.completed)` over a non-empty list. */
  predicate AllCompleted(ts: seq<Task>, ids: seq<string>) {
    |ids| > 0 && forall id :: id in ids ==> Find(ts, id).Some? && Find(ts, id).value.completed
  }

  /** The ids of the second branch whose first task is neither in progress nor completed. */
  function CatchUpIds(ts: seq<Task>, ids: seq<string>): (r: seq<string>)
    ensures forall id :: id in r ==> id in ids
    decreases |ids|
  {
    if ids == [] then []
    else
      var id := ids[|ids| - 1];
      var f := Find(ts, id);
      CatchUpIds(ts, ids[..|ids| - 1]) + (if f.Some? && !f.value.inProgress && !f.value.completed then [id] else [])
  }

  /** What the effect promotes in one PANIC run, given the ids remembered from the previous one. */
  function FocusPromotions(ts: seq<Task>, previous: seq<string>): seq<string> {
    var current := Ids(VisibleTasks(ts, Panic));
    (if |current| == 0 then RefillIds(ts) else [])
    + (if AllCompleted(ts, previous) && |current| > 0 && current != previous then CatchUpIds(ts, current) else [])
  }

  /**
   * With unique ids, the second branch finds nothing to promote: each
   * visible id belongs to a task already in progress.
   */
  lemma CatchUpIdsEmpty(ts: seq<Task>)
    requires UniqueIds(ts)
    ensures CatchUpIds(ts, Ids(VisibleTasks(ts, Panic))) == []
  {
    var ids := Ids(VisibleTasks(ts, Panic));
    forall id | id in ids ensures Find(ts, id).Some? && Find(ts, id).value.inProgress {
      var v := VisibleTasks(ts, Panic);
      var i :| 0 <= i < |ids| && ids[i] == id;
      assert v[i] in v;
      var k :| 0 <= k < |ts| && ts[k] == v[i];
      FindUnique(ts, k);
    }
    CatchUpIdsNone(ts, ids);
  }

  lemma {:induction false} CatchUpIdsNone(ts: seq<Task>, ids: seq<string>)
    requires forall id :: id in ids ==> Find(ts, id).Some? && Find(ts, id).value.inProgress
    ensures CatchUpIds(ts, ids) == []
    decreases |ids|
  {
    if ids != [] {
      assert ids[|ids| - 1] in ids;
      CatchUpIdsNone(ts, ids[..|ids| - 1]);
    }
  }

  /**
   * With unique ids, a PANIC run promotes the first min(3, backlog) backlog
   * tasks when nothing is visible, and nothing otherwise.
   */
  lemma FocusPromotionsUnique(ts: seq<Task>, previous: seq<string>)
    requires UniqueIds(ts)
    ensures FocusPromotions(ts, previous) ==
            if |VisibleTasks(ts, Panic)| == 0 then RefillIds(ts) else []
  {
    CatchUpIdsEmpty(ts);
  }

  /**
   * The refill sets `inProgress` and clears `completed` on exactly the
   * tasks whose id is among the first three backlog ids; every other task is
   * unchanged.
   */
  lemma RefillEffect(ts: seq<Task>)
    ensures |PromoteAll(ts, RefillIds(ts))| == |ts|
    ensures forall i :: 0 <= i < |ts| ==>
              PromoteAll(ts, RefillIds(ts))[i] ==
              (if ts[i].id in RefillIds(ts) then ts[i].(inProgress := true, completed := false) else ts[i])
  {
    PromoteAllPointwise(ts, RefillIds(ts));
  }

  /** With an empty backlog there is nothing to refill. */
  lemma EmptyBacklogNoRefill(ts: seq<Task>)
    requires |Backlog(ts)| == 0
    ensures PromoteAll(ts, RefillIds(ts)) == ts
  {
  }

  class FocusList {
    /** `previousVisibleTasksRef.current`. */
    var previousVisibleIds: seq<string>

    constructor()
      ensures previousVisibleIds == []
    {
      previousVisibleIds := [];
    }

    /** The focus-mode effect, run after a render with the session's current state. */
    method Evaluate(s: Session)
      requires s.Valid()
      modifies this, s
      ensures s.Valid()
      ensures old(s.cognitiveLoad) != Panic ==>
                s.State() == old(s.State()) && previousVisibleIds == old(previousVisibleIds)
      ensures old(s.cognitiveLoad) == Panic ==>
                s.State() == old(s.State()).(tasks := PromoteAll(old(s.tasks), FocusPromotions(old(s.tasks), old(previousVisibleIds))))
                && previousVisibleIds == Ids(VisibleTasks(old(s.tasks), Panic))
    {
      if s.cognitiveLoad == Panic {
        var ts := s.tasks;
        var current := Ids(VisibleTasks(ts, Panic));
        var previous := previousVisibleIds;
        var refill := if |current| == 0 then RefillIds(ts) else [];
        Promote(s, refill);
        if AllCompleted(ts, previous) && |current| > 0 && current != previous {
          CatchUp(s, ts, current);
          PromoteAllAppend(ts, refill, CatchUpIds(ts, current));
        } else {
          assert refill + [] == refill;
        }
        previousVisibleIds := current;
      }
    }
  }

  /** The refill loop: `setTaskInProgress(id, true)` for each id. */
  method Promote(s: Session, ids: seq<string>)
    requires s.Valid()
    modifies s
    ensures s.Valid()
    ensures s.State() == old(s.State()).(tasks := PromoteAll(old(s.tasks), ids))
  {
    var i := 0;
    while i < |ids|
      invariant 0 <= i <= |ids|
      invariant s.Valid()
      invariant s.State() == old(s.State()).(tasks := PromoteAll(old(s.tasks), ids[..i]))
    {
      assert ids[..i + 1][..i] == ids[..i];
      s.SetTaskInProgress(ids[i], true);
      i := i + 1;
    }
    assert ids[..|ids|] == ids;
  }

  /**
   * The second branch's loop: promote each visible id whose first task in
   * the render's list `ts` is neither in progress nor completed.
   */
  method CatchUp(s: Session, ts: seq<Task>, ids: seq<string>)
    requires s.Valid()
    modifies s
    ensures s.Valid()
    ensures s.State() == old(s.State()).(tasks := PromoteAll(old(s.tasks), CatchUpIds(ts, ids)))
  {
    var i := 0;
    while i < |ids|
      invariant 0 <= i <= |ids|
      invariant s.Valid()
      invariant s.State() == old(s.State()).(tasks := PromoteAll(old(s.tasks), CatchUpIds(ts, ids[..i])))
    {
      assert ids[..i + 1][..i] == ids[..i];
      var f := Find(ts, ids[i]);
      var before := CatchUpIds(ts, ids[..i]);
      if f.Some? && !f.value.inProgress && !f.value.completed {
        assert CatchUpIds(ts, ids[..i + 1]) == before + [ids[i]];
        assert (before + [ids[i]])[..|before|] == before;
        s.SetTaskInProgress(ids[i], true);
      } else {
        assert CatchUpIds(ts, ids[..i + 1]) == before + [];
        assert before + [] == before;
      }
      i := i + 1;
    }
    assert ids[..|ids|] == ids;
  }

  /** Promoting two lists one after the other is promoting their concatenation. */
  lemma {:induction false} PromoteAllAppend(ts: seq<Task>, a: seq<string>, b: seq<string>)
    ensures PromoteAll(PromoteAll(ts, a), b) == PromoteAll(ts, a + b)
    decreases |b|
  {
    if b == [] {
      assert a + b == a;
    } else {
      PromoteAllAppend(ts, a, b[..|b| - 1]);
      assert (a + b)[..|a + b| - 1] == a + b[..|b| - 1];
    }
  }
}
