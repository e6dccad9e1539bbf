/**
 * The session store (src/context/UserContext.tsx): the state cells that the
 * action handlers and the effects update, as fields of `Session`. Every
 * method states its new state as a function of the old one; the functions
 * are those of `TaskStore`, `Mastery`, `Workload` and `PanicProtocol`, where
 * the properties are proved.
 *
 * The two effects of the store are the methods `EvaluateMode` and
 * `EvaluateProposal`, to be called after each event. The clock is a
 * parameter (`today`, `now`), and so is every random id.
 */
module UserContext {
  import opened Dates
  import opened Types
  import opened TaskSeq
  import opened TaskStore
  import opened Workload
  import opened Mastery
  import opened PanicProtocol

  /** The whole modelled state of the store, for stating what a method changes. */
  datatype SessionState = SessionState(
    masteryScore: int,
    userMode: UserMode,
    cognitiveLoad: CognitiveLoad,
    deviceType: DeviceType,
    tasks: seq<Task>,
    metrics: Metrics,
    proposal: Proposal)

  /** The state after `toggleTask(id)`: one capped bump and one completion per task it completes. */
  function Toggled(st: SessionState, id: string): SessionState {
    var k := NewlyCompleted(st.tasks, id);
    st.(masteryScore := CappedAdd(st.masteryScore, k),
        metrics := st.metrics.(tasksCompleted := st.metrics.tasksCompleted + k),
        tasks := ToggleTasks(st.tasks, id))
  }

  /** The state after `setTaskInProgress(id, flag)`. */
  function InProgressSet(st: SessionState, id: string, flag: bool): SessionState {
    st.(tasks := SetInProgress(st.tasks, id, flag))
  }

  /** `Date.now() - 86400000`, as a local day and time of day (ignoring daylight-saving shifts). */
  function Yesterday(now: Instant): (r: Instant)
    ensures Millis(r) == Millis(now) - MsPerDay
    ensures r.msOfDay == now.msOfDay
  {
    var r := Instant(Date(now.day.year, now.day.month, now.day.day - 1), now.msOfDay);
    SameMonthOrder(r.day, now.day);
    r
  }

  /** One of the four HIGH-priority tasks that `triggerPanicMode` adds. */
  function PanicTask(suffix: string, title: string, effort: int, now: Instant): Task {
    Task("panic-" + suffix, title, false, false, HIGH, effort, None, Some(Yesterday(now)),
         Millis(Yesterday(now)))
  }

  /** The four tasks of `triggerPanicMode`, each created and due one day before `now`. */
  function PanicTasks(s0: string, s1: string, s2: string, s3: string, now: Instant): (r: seq<Task>)
    ensures |r| == 4
    ensures forall i :: 0 <= i < 4 ==>
              !r[i].completed && !r[i].inProgress && r[i].priority == HIGH
              && r[i].dueDate == Some(Yesterday(now)) && r[i].createdAt == Millis(now) - MsPerDay
    ensures r[0].effort == 60 && r[1].effort == 45 && r[2].effort == 10 && r[3].effort == 5
  {
    [PanicTask(s0, "OVERDUE: Submit Report", 60, now),
     PanicTask(s1, "URGENT: Fix Bug #992", 45, now),
     PanicTask(s2, "Email Boss ASAP", 10, now),
     PanicTask(s3, "Missed Call: Mom", 5, now)]
  }

  /**
   * The panic tasks are overdue on the day of `now` and belong to the
   * backlog, so triggering raises the overdue count by four and the
   * workload by four.
   */
  lemma PanicTasksRaiseCounts(ts: seq<Task>, s0: string, s1: string, s2: string, s3: string, now: Instant)
    ensures OverdueCount(SortTasks(ts + PanicTasks(s0, s1, s2, s3, now)), now.day) == OverdueCount(ts, now.day) + 4
    ensures TotalWorkload(SortTasks(ts + PanicTasks(s0, s1, s2, s3, now))) == TotalWorkload(ts) + 4
  {
    var p := PanicTasks(s0, s1, s2, s3, now);
    SortKeepsCounts(ts + p, now.day);
    PanicTasksOverdue(ts, p, now);
    PanicTasksWorkload(ts, p);
  }

  lemma PanicTasksOverdue(ts: seq<Task>, p: seq<Task>, now: Instant)
    requires |p| == 4 && forall i :: 0 <= i < 4 ==> !p[i].completed && p[i].dueDate == Some(Yesterday(now))
    ensures OverdueCount(ts + p, now.day) == OverdueCount(ts, now.day) + 4
  {
    forall i | 0 <= i < 4 ensures IsOverdue(p[i], now.day) {
      DueYesterdayOverdue(p[i], now.day, now.msOfDay);
    }
    var overdue := (t: Task) => IsOverdue(t, now.day);
    FilterAppend(ts, p, overdue);
    FilterAll(p, overdue);
  }

  lemma PanicTasksWorkload(ts: seq<Task>, p: seq<Task>)
    requires |p| == 4 && forall i :: 0 <= i < 4 ==> !p[i].completed && !p[i].inProgress
    ensures TotalWorkload(ts + p) == TotalWorkload(ts) + 4
  {
    FilterAppend(ts, p, InBacklog);
    FilterAll(p, InBacklog);
    FilterAppend(ts, p, InProgress);
    FilterNone(p, InProgress);
  }

  /**
   * After `triggerPanicMode` the next evaluation proposes focus mode unless
   * the load is already PANIC, a proposal stands, or a remembered dismissal
   * workload is still not exceeded.
   */
  lemma TriggerThenEvaluateProposes(ts: seq<Task>, p: Proposal, load: CognitiveLoad,
                                    s0: string, s1: string, s2: string, s3: string, now: Instant)
    requires load != Panic && !p.proposed
    requires p.dismissedCount == 0 || TotalWorkload(ts) + 4 > p.dismissedCount
    ensures
      var ts' := SortTasks(ts + PanicTasks(s0, s1, s2, s3, now));
      Evaluate(p, TotalWorkload(ts'), OverdueCount(ts', now.day), load).proposed
  {
    PanicTasksRaiseCounts(ts, s0, s1, s2, s3, now);
  }

  /**
   * With unique ids, toggling the task at `k` bumps the score once if it was
   * incomplete and leaves it alone if it was completed.
   */
  lemma ToggleScore(ts: seq<Task>, k: int, score: int)
    requires UniqueIds(ts) && 0 <= k < |ts|
    ensures CappedAdd(score, NewlyCompleted(ts, ts[k].id)) ==
            if ts[k].completed then score else CompletionBump(score)
    ensures NewlyCompleted(ts, ts[k].id) == if ts[k].completed then 0 else 1
  {
    NewlyCompletedUnique(ts, k);
  }

  /**
   * `resetSimulation` keeps the dismissal memory, but the next evaluation
   * over the empty list clears the snapshot and any non-zero timestamp.
   */
  lemma ResetThenEvaluateForgets(p: Proposal, today: Date, load: CognitiveLoad)
    ensures var r := Evaluate(p.(proposed := false), TotalWorkload([]), OverdueCount([], today), load);
            !r.proposed && r.dismissedCount == 0
            && (r.dismissedAt == None || r.dismissedAt == Some(0))
  {
    assert TotalWorkload([]) == 0;
    assert OverdueCount([], today) == 0;
  }

  class Session {
    var masteryScore: int
    var userMode: UserMode
    var cognitiveLoad: CognitiveLoad
    var deviceType: DeviceType
    var tasks: seq<Task>
    var metrics: Metrics
    var isPanicProposed: bool
    var panicDismissedAt: Option<int>
    var dismissedTaskCount: nat

    /** The score stays within 0..100. */
    ghost predicate Valid()
      reads this
    {
      0 <= masteryScore <= 100
    }

    function State(): SessionState
      reads this
    {
      SessionState(masteryScore, userMode, cognitiveLoad, deviceType, tasks, metrics, ProposalState())
    }

    function ProposalState(): Proposal
      reads this
    {
      Proposal(isPanicProposed, panicDismissedAt, dismissedTaskCount)
    }

    /** The initial state of the provider. */
    constructor()
      ensures Valid()
      ensures State() == SessionState(0, BEGINNER, LowLoad, DESKTOP, [], Metrics(0, 0, 0), Initial)
    {
      masteryScore, userMode, cognitiveLoad, deviceType := 0, BEGINNER, LowLoad, DESKTOP;
      tasks, metrics := [], Metrics(0, 0, 0);
      isPanicProposed, panicDismissedAt, dismissedTaskCount := false, None, 0;
    }

    /** `addTask`, with the random id and the creation time passed in. */
    method AddTask(draft: TaskDraft, freshId: string, createdAt: int)
      requires Valid()
      modifies this
      ensures Valid()
      ensures State() == old(State()).(tasks := AddTasks(old(tasks), Materialize(draft, freshId, createdAt)))
    {
      tasks := AddTasks(tasks, Materialize(draft, freshId, createdAt));
    }

    /** `toggleTask`: one capped bump and one completion per task it completes. */
    method ToggleTask(id: string)
      requires Valid()
      modifies this
      ensures Valid()
      ensures State() == Toggled(old(State()), id)
    {
      var k := NewlyCompleted(tasks, id);
      CappedAddInRange(masteryScore, k);
      masteryScore := CappedAdd(masteryScore, k);
      metrics := metrics.(tasksCompleted := metrics.tasksCompleted + k);
      tasks := ToggleTasks(tasks, id);
    }

    method DeleteTask(id: string)
      requires Valid()
      modifies this
      ensures Valid()
      ensures State() == old(State()).(tasks := DeleteTasks(old(tasks), id))
    {
      tasks := DeleteTasks(tasks, id);
    }

    method UpdateTask(id: string, patch: TaskPatch)
      requires Valid()
      modifies this
      ensures Valid()
      ensures State() == old(State()).(tasks := UpdateTasks(old(tasks), id, patch))
    {
      tasks := UpdateTasks(tasks, id, patch);
    }

    method SetTaskInProgress(id: string, flag: bool)
      requires Valid()
      modifies this
      ensures Valid()
      ensures State() == InProgressSet(old(State()), id, flag)
    {
      tasks := SetInProgress(tasks, id, flag);
    }

    method SimulateMissedDeadline()
      requires Valid()
      modifies this
      ensures Valid()
      ensures State() == old(State()).(metrics := old(metrics).(missedDeadlines := old(metrics.missedDeadlines) + 1))
    {
      metrics := metrics.(missedDeadlines := metrics.missedDeadlines + 1);
    }

    /** `triggerPanicMode`: three more missed deadlines and four overdue HIGH tasks. */
    method TriggerPanicMode(s0: string, s1: string, s2: string, s3: string, now: Instant)
      requires Valid()
      modifies this
      ensures Valid()
      ensures State() == old(State()).(
                metrics := old(metrics).(missedDeadlines := old(metrics.missedDeadlines) + 3),
                tasks := SortTasks(old(tasks) + PanicTasks(s0, s1, s2, s3, now)))
    {
      metrics := metrics.(missedDeadlines := metrics.missedDeadlines + 3);
      tasks := SortTasks(tasks + PanicTasks(s0, s1, s2, s3, now));
    }

    /**
     * `resetSimulation`: score, load, metrics, tasks and the proposed flag go
     * back to their initial values; the mode, the device and the dismissal
     * memory are left for the effects.
     */
    method ResetSimulation()
      requires Valid()
      modifies this
      ensures Valid()
      ensures State() == old(State()).(
                masteryScore := 0, cognitiveLoad := LowLoad, metrics := Metrics(0, 0, 0), tasks := [],
                proposal := old(ProposalState()).(proposed := false))
    {
      masteryScore, cognitiveLoad := 0, LowLoad;
      metrics, tasks := Metrics(0, 0, 0), [];
      isPanicProposed := false;
    }

    /** The simulation slider and persona buttons write the score directly. */
    method SetMasteryScore(score: int)
      requires Valid()
      requires 0 <= score <= 100
      modifies this
      ensures Valid()
      ensures State() == old(State()).(masteryScore := score)
    {
      masteryScore := score;
    }

    method SetCognitiveLoad(load: CognitiveLoad)
      requires Valid()
      modifies this
      ensures Valid()
      ensures State() == old(State()).(cognitiveLoad := load)
    {
      cognitiveLoad := load;
    }

    method SetDeviceType(device: DeviceType)
      requires Valid()
      modifies this
      ensures Valid()
      ensures State() == old(State()).(deviceType := device)
    {
      deviceType := device;
    }

    /** The exposed `setIsPanicProposed`. */
    method SetIsPanicProposed(b: bool)
      requires Valid()
      modifies this
      ensures Valid()
      ensures State() == old(State()).(proposal := old(ProposalState()).(proposed := b))
    {
      isPanicProposed := b;
    }

    /** The exposed `setPanicDismissedAt`. */
    method SetPanicDismissedAt(at: Option<int>)
      requires Valid()
      modifies this
      ensures Valid()
      ensures State() == old(State()).(proposal := old(ProposalState()).(dismissedAt := at))
    {
      panicDismissedAt := at;
    }

    /** The exposed `setDismissedTaskCount`. */
    method SetDismissedTaskCount(n: nat)
      requires Valid()
      modifies this
      ensures Valid()
      ensures State() == old(State()).(proposal := old(ProposalState()).(dismissedCount := n))
    {
      dismissedTaskCount := n;
    }

    /** The mode effect. */
    method EvaluateMode()
      requires Valid()
      modifies this
      ensures Valid()
      ensures State() == old(State()).(userMode := ModeOf(old(masteryScore)))
    {
      userMode := ModeOf(masteryScore);
    }

    /** The proposal effect, with the overdue count taken relative to `today`. */
    method EvaluateProposal(today: Date)
      requires Valid()
      modifies this
      ensures Valid()
      ensures State() == old(State()).(proposal := Evaluate(old(ProposalState()),
                TotalWorkload(old(tasks)), OverdueCount(old(tasks), today), old(cognitiveLoad)))
    {
      var p := Evaluate(ProposalState(), TotalWorkload(tasks), OverdueCount(tasks, today), cognitiveLoad);
      isPanicProposed, panicDismissedAt, dismissedTaskCount := p.proposed, p.dismissedAt, p.dismissedCount;
    }
  }
}
