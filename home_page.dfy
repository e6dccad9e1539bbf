/**
 * The home page (src/app/page.tsx): the manual "Enter Focus Mode" button,
 * the view switcher that only EXPERIENCED users see, and the one task view
 * the current choice shows.
 */
module HomePage {
  import opened Dates
  import opened Types
  import opened Workload
  import opened UserContext
  import opened AdaptiveLayout

  datatype View = LIST | KANBAN | TIMELINE

  /**
   * The manual focus button: not in PANIC, no proposal standing, and either
   * four or more incomplete tasks or at least one overdue task.
   */
  predicate ShowManualFocus(load: CognitiveLoad, proposed: bool, ts: seq<Task>, overdue: nat) {
    load != Panic && !proposed && (|Incomplete(ts)| >= 4 || overdue > 0)
  }

  /**
   * The page's button counts incomplete tasks where the layout's counts
   * backlog plus in-progress tasks; the two conditions agree on every state.
   */
  lemma FocusButtonMatchesLayout(st: SessionState, today: Date)
    ensures ShowManualFocus(st.cognitiveLoad, st.proposal.proposed, st.tasks, OverdueCount(st.tasks, today))
            <==> OffersCatchUp(st, today)
  {
    OfferCountsIncomplete(st, today);
  }

  /** The switcher is rendered for EXPERIENCED users only. */
  predicate ShowsViewSwitcher(mode: UserMode) {
    mode == EXPERIENCED
  }

  /** The panel each choice renders: the list, the board or the timeline, exactly one of them. */
  datatype Panel = TaskListPanel | KanbanPanel | TimelinePanel

  function PanelOf(v: View): (p: Panel)
    ensures p == TaskListPanel <==> v == LIST
    ensures p == KanbanPanel <==> v == KANBAN
    ensures p == TimelinePanel <==> v == TIMELINE
  {
    match v
    case LIST => TaskListPanel
    case KANBAN => KanbanPanel
    case TIMELINE => TimelinePanel
  }

  class Home {
    var view: View

    constructor()
      ensures view == LIST
    {
      view := LIST;
    }

    /**
     * A switcher button; below EXPERIENCED there is no switcher and the
     * choice stays as it was, whatever it was.
     */
    method SelectView(mode: UserMode, v: View)
      modifies this
      ensures ShowsViewSwitcher(mode) ==> view == v
      ensures !ShowsViewSwitcher(mode) ==> view == old(view)
    {
      if ShowsViewSwitcher(mode) {
        view := v;
      }
    }

    /** The manual focus button, pressed while it is shown, sets the load to PANIC. */
    method EnterFocus(s: Session, today: Date)
      requires s.Valid()
      modifies s
      ensures s.Valid()
      ensures var shown := ShowManualFocus(old(s.cognitiveLoad), old(s.isPanicProposed), old(s.tasks), OverdueCount(old(s.tasks), today));
              s.State() == if shown then old(s.State()).(cognitiveLoad := Panic) else old(s.State())
    {
      if ShowManualFocus(s.cognitiveLoad, s.isPanicProposed, s.tasks, OverdueCount(s.tasks, today)) {
        s.SetCognitiveLoad(Panic);
      }
    }
  }
}
