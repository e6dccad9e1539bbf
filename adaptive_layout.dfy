/**
 * The application shell (src/components/AdaptiveLayout.tsx): which parts of
 * the layout show for the current device, tier, load and proposal state,
 * the Exit button of the focus header, and the mobile "+" button, which opens
 * the task dialog on a blank task whose id is the empty string.
 */
module AdaptiveLayout {
  import opened Dates
  import opened Types
  import opened TaskStore
  import opened Workload
  import opened PanicProtocol
  import opened UserContext
  import opened TaskEditModal

  predicate ShowSidebar(device: DeviceType, load: CognitiveLoad) {
    device == DESKTOP && load != Panic
  }

  /**
   * The layout's `showManualCatchUp` condition: not in PANIC, nothing
   * proposed, and a trigger holds. The layout computes it but renders
   * nothing with it; the offer the user sees is the home page's focus
   * button, which shows on the same condition (`HomePage.ShowManualFocus`).
   */
  predicate ShowManualCatchUp(load: CognitiveLoad, proposed: bool, workload: nat, overdue: nat) {
    load != Panic && !proposed && (workload >= 4 || overdue > 0)
  }

  /** The condition, for a session state and today's date. */
  predicate OffersCatchUp(st: SessionState, today: Date) {
    ShowManualCatchUp(st.cognitiveLoad, st.proposal.proposed, TotalWorkload(st.tasks), OverdueCount(st.tasks, today))
  }

  predicate ShowsCalendarNav(mode: UserMode) {
    mode != BEGINNER
  }

  predicate ShowsDashboardNav(mode: UserMode) {
    mode == EXPERIENCED
  }

  predicate ShowsFocusHeader(load: CognitiveLoad) {
    load == Panic
  }

  /**
   * The manual condition holds in every case the proposal rule would propose,
   * and beyond it exactly while the dismissal memory holds the proposal back.
   */
  lemma CatchUpOfferVersusProposal(p: Proposal, workload: nat, overdue: nat, load: CognitiveLoad)
    ensures ShouldPropose(p, workload, overdue, load) ==> ShowManualCatchUp(load, p.proposed, workload, overdue)
    ensures ShowManualCatchUp(load, p.proposed, workload, overdue) && !ShouldPropose(p, workload, overdue, load)
            <==> ShowManualCatchUp(load, p.proposed, workload, overdue) && p.dismissedCount != 0 && workload <= p.dismissedCount
  {
  }

  /** The offer's workload is the number of incomplete tasks. */
  lemma OfferCountsIncomplete(st: SessionState, today: Date)
    ensures OffersCatchUp(st, today) <==>
              ShowManualCatchUp(st.cognitiveLoad, st.proposal.proposed, |Incomplete(st.tasks)|, OverdueCount(st.tasks, today))
  {
    TotalWorkloadIsIncomplete(st.tasks);
  }

  /** The navigation unlocks in order: the dashboard never shows without the calendar. */
  lemma NavigationNested(mode: UserMode)
    ensures ShowsDashboardNav(mode) ==> ShowsCalendarNav(mode)
  {
  }

  /** The Exit button: back to LOW; the proposal state and everything else stay. */
  method ExitFocus(s: Session)
    requires s.Valid()
    modifies s
    ensures s.Valid()
    ensures s.State() == old(s.State()).(cognitiveLoad := LowLoad)
  {
    s.SetCognitiveLoad(LowLoad);
  }

  /** The blank task the mobile "+" button opens, created at `createdAt`. */
  function FabTask(createdAt: int): (t: Task)
    ensures t.id == "" && t.title == "" && !t.completed && t.priority == MEDIUM && t.effort == 15
  {
    Task("", "", false, false, MEDIUM, 15, None, None, createdAt)
  }

  /** The "+" button opens the dialog in edit mode on the blank task. */
  method OpenFabEditor(createdAt: int) returns (e: TaskEditor)
    ensures fresh(e) && e.isOpen
    ensures e.task == Some(FabTask(createdAt))
    ensures e.form == EditForm("", "", MEDIUM, 15, None)
  {
    e := new TaskEditor(Some(FabTask(createdAt)));
  }

  /**
   * Saving the blank task takes the update path with id "", which matches no
   * stored task: no task is added, and the list is only re-sorted.
   */
  lemma FabSaveAddsNothing(ts: seq<Task>, f: EditForm, createdAt: int)
    requires !HasId(ts, "")
    ensures UpdateTasks(ts, FabTask(createdAt).id, PatchOf(f)) == SortTasks(ts)
    ensures multiset(UpdateTasks(ts, FabTask(createdAt).id, PatchOf(f))) == multiset(ts)
  {
    EditAbsent(ts, "", Patch(PatchOf(f)));
  }
}
