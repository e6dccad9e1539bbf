/**
 * The focus-mode proposal dialog (src/components/PanicProposalModal.tsx). It
 * is rendered only while a proposal stands, so both handlers run only then.
 * Dismissing withdraws the proposal and remembers the time and the current
 * workload; accepting enters PANIC and forgets the time but, as written, not
 * the remembered workload.
 */
module ProposalModal {
  import opened Types
  import opened Workload
  import opened PanicProtocol
  import opened UserContext

  /** `handleDismiss` at time `now`. */
  method HandleDismiss(s: Session, now: int)
    requires s.Valid() && s.isPanicProposed
    modifies s
    ensures s.Valid()
    ensures s.State() == old(s.State()).(proposal := Dismiss(old(s.ProposalState()), TotalWorkload(old(s.tasks)), now))
  {
    var totalWorkload := TotalWorkload(s.tasks);
    s.SetIsPanicProposed(false);
    s.SetPanicDismissedAt(Some(now));
    s.SetDismissedTaskCount(totalWorkload);
  }

  /** The "Enter Focus Mode" handler. */
  method HandleAccept(s: Session)
    requires s.Valid() && s.isPanicProposed
    modifies s
    ensures s.Valid()
    ensures s.State() == old(s.State()).(cognitiveLoad := Panic, proposal := Accept(old(s.ProposalState())))
  {
    s.SetCognitiveLoad(Panic);
    s.SetIsPanicProposed(false);
    s.SetPanicDismissedAt(None);
  }

  /** The workload a dismissal remembers is the number of incomplete tasks. */
  lemma DismissRemembersIncomplete(p: Proposal, ts: seq<Task>, now: int)
    ensures Dismiss(p, TotalWorkload(ts), now).dismissedCount == |Incomplete(ts)|
  {
    TotalWorkloadIsIncomplete(ts);
  }
}
