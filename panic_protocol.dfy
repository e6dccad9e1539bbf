/**
 * The focus-mode proposal rule and its dismissal memory: the proposal effect
 * of the store (src/context/UserContext.tsx:85-118) and the two handlers of
 * the proposal dialog (src/components/PanicProposalModal.tsx:12-21, 49-53),
 * as functions on the three state cells involved.
 */
module PanicProtocol {
  import opened Types

  /**
   * `isPanicProposed`, `panicDismissedAt` (a timestamp or null) and
   * `dismissedTaskCount`, the workload remembered at the last dismissal
   * (0 meaning none is remembered).
   */
  datatype Proposal = Proposal(proposed: bool, dismissedAt: Option<int>, dismissedCount: nat)

  const Initial := Proposal(false, None, 0)

  /** The workload or overdue condition that makes a proposal relevant. */
  predicate Triggered(workload: nat, overdue: nat) {
    workload >= 4 || overdue > 0
  }

  predicate ShouldPropose(p: Proposal, workload: nat, overdue: nat, load: CognitiveLoad) {
    Triggered(workload, overdue) && load != Panic && !p.proposed
    && (p.dismissedCount == 0 || workload > p.dismissedCount)
  }

  /** The condition under which the effect forgets the proposal and the dismissal. */
  predicate Clears(workload: nat, overdue: nat) {
    workload < 4 && overdue == 0
  }

  /**
   * One run of the proposal effect. The clear branch drops `dismissedAt`
   * only when it is truthy, so a stored timestamp of 0 survives it.
   */
  function Evaluate(p: Proposal, workload: nat, overdue: nat, load: CognitiveLoad): (r: Proposal)
    ensures r.proposed ==> Triggered(workload, overdue)
    ensures r.dismissedCount == if Clears(workload, overdue) then 0 else p.dismissedCount
    ensures Clears(workload, overdue) && p.dismissedAt != Some(0) ==> r.dismissedAt == None
    ensures !Clears(workload, overdue) || p.dismissedAt == Some(0) ==> r.dismissedAt == p.dismissedAt
  {
    if ShouldPropose(p, workload, overdue, load) then p.(proposed := true)
    else if Clears(workload, overdue) then
      Proposal(false, if p.dismissedAt.Some? && p.dismissedAt.value != 0 then None else p.dismissedAt, 0)
    else p
  }

  /** `handleDismiss`: withdraw the proposal, stamp the time, remember the workload. */
  function Dismiss(p: Proposal, workload: nat, now: int): (r: Proposal)
    ensures !r.proposed && r.dismissedAt == Some(now) && r.dismissedCount == workload
  {
    Proposal(false, Some(now), workload)
  }

  /** The accept handler's effect on these cells (it also sets the load to PANIC). */
  function Accept(p: Proposal): (r: Proposal)
    ensures !r.proposed && r.dismissedAt == None
    ensures r.dismissedCount == p.dismissedCount
  {
    p.(proposed := false, dismissedAt := None)
  }

  /** The two branches of the effect never both apply. */
  lemma BranchesDisjoint(p: Proposal, workload: nat, overdue: nat, load: CognitiveLoad)
    ensures !(ShouldPropose(p, workload, overdue, load) && Clears(workload, overdue))
  {
  }

  /** From a withdrawn proposal, evaluation proposes exactly when the rule says so. */
  lemma ProposesExactlyWhen(p: Proposal, workload: nat, overdue: nat, load: CognitiveLoad)
    requires !p.proposed
    ensures Evaluate(p, workload, overdue, load).proposed <==>
              Triggered(workload, overdue) && load != Panic
              && (p.dismissedCount == 0 || workload > p.dismissedCount)
  {
  }

  /** A standing proposal is kept while the trigger holds and withdrawn once it does not. */
  lemma StandingProposal(p: Proposal, workload: nat, overdue: nat, load: CognitiveLoad)
    requires p.proposed
    ensures Evaluate(p, workload, overdue, load).proposed <==> Triggered(workload, overdue)
  {
  }

  /**
   * One evaluation reaches a fixpoint: the effect re-runs after its own state
   * changes, and the re-run changes nothing.
   */
  lemma EvaluateIdempotent(p: Proposal, workload: nat, overdue: nat, load: CognitiveLoad)
    ensures Evaluate(Evaluate(p, workload, overdue, load), workload, overdue, load)
            == Evaluate(p, workload, overdue, load)
  {
  }

  /** What the effect sees on one run: the workload, the overdue count and the load. */
  datatype Observation = Observation(workload: nat, overdue: nat, load: CognitiveLoad)

  /** The proposal state after the effect has run on each observation in turn. */
  function Run(p: Proposal, obs: seq<Observation>): Proposal
    decreases |obs|
  {
    if obs == [] then p
    else Run(Evaluate(p, obs[0].workload, obs[0].overdue, obs[0].load), obs[1..])
  }

  /**
   * Hysteresis: after a dismissal that remembered workload `w > 0`, no
   * evaluation re-proposes, and the state stays exactly as it is, as long
   * as the trigger keeps holding and the workload stays at most `w`.
   */
  lemma {:induction false} NoReproposeWhileAtMostSnapshot(p: Proposal, obs: seq<Observation>)
    requires !p.proposed && p.dismissedCount > 0
    requires forall i :: 0 <= i < |obs| ==>
               obs[i].workload <= p.dismissedCount && Triggered(obs[i].workload, obs[i].overdue)
    ensures Run(p, obs) == p
  {
    if obs != [] {
      assert Evaluate(p, obs[0].workload, obs[0].overdue, obs[0].load) == p;
      NoReproposeWhileAtMostSnapshot(p, obs[1..]);
    }
  }

  /** Right after a dismissal at workload `w > 0`, the re-run effect does not propose again. */
  lemma DismissHolds(p: Proposal, workload: nat, overdue: nat, now: int, load: CognitiveLoad)
    requires workload > 0
    ensures !Evaluate(Dismiss(p, workload, now), workload, overdue, load).proposed
  {
  }

  /** The first evaluation with a workload above the remembered one proposes again (outside PANIC). */
  lemma ReproposeAboveSnapshot(p: Proposal, workload: nat, overdue: nat, load: CognitiveLoad)
    requires !p.proposed && workload > p.dismissedCount && load != Panic
    requires Triggered(workload, overdue)
    ensures Evaluate(p, workload, overdue, load).proposed
  {
  }

  /**
   * After a dismissal, an evaluation where the workload has dropped below 4
   * with nothing overdue wipes the snapshot, and reaching 4 again proposes.
   */
  lemma ClearThenRepropose(p: Proposal, w0: nat, now: int, w1: nat, w2: nat, o2: nat,
                           l1: CognitiveLoad, l2: CognitiveLoad)
    requires w1 < 4 && now != 0
    requires Triggered(w2, o2) && l2 != Panic
    ensures Evaluate(Dismiss(p, w0, now), w1, 0, l1) == Initial
    ensures Evaluate(Evaluate(Dismiss(p, w0, now), w1, 0, l1), w2, o2, l2).proposed
  {
  }

  /**
   * Accepting keeps the snapshot: once the session leaves PANIC, the
   * workload remembered at an earlier dismissal still holds proposals back
   * until the workload exceeds it or the clear condition wipes it.
   */
  lemma AcceptKeepsHysteresis(p: Proposal, obs: seq<Observation>)
    requires p.dismissedCount > 0
    requires forall i :: 0 <= i < |obs| ==>
               obs[i].workload <= p.dismissedCount && Triggered(obs[i].workload, obs[i].overdue)
    ensures Run(Accept(p), obs) == Accept(p)
  {
    NoReproposeWhileAtMostSnapshot(Accept(p), obs);
  }

  /** A dismissal stamped at time 0 is not forgotten by the clear branch (0 is falsy). */
  lemma ZeroTimestampSurvivesClear(p: Proposal, workload: nat, load: CognitiveLoad)
    requires p.dismissedAt == Some(0) && workload < 4
    ensures Evaluate(p, workload, 0, load).dismissedAt == Some(0)
  {
  }
}
