/**
 * The missed-deadline prompt (src/components/MotivationalModal.tsx). An
 * effect on `metrics.missedDeadlines` opens it whenever the count changes to
 * a positive multiple of three; accepting enters PANIC, dismissing only
 * closes it. The effect's dependency is the count last seen by the effect.
 */
module MotivationalModal {
  import opened Types
  import opened UserContext

  /** The effect's condition on the missed-deadline count. */
  predicate Prompts(missed: int) {
    missed > 0 && missed % 3 == 0
  }

  /** The prompt opens exactly at the counts 3, 6, 9, ... */
  lemma PromptsAtMultiplesOfThree(missed: int)
    ensures Prompts(missed) <==> exists k :: k >= 1 && missed == 3 * k
  {
    if Prompts(missed) {
      assert missed == 3 * (missed / 3);
    }
  }

  /** Among three consecutive counts after `n`, exactly one opens the prompt. */
  lemma OneInThree(n: nat)
    ensures Prompts(n + 1) || Prompts(n + 2) || Prompts(n + 3)
    ensures !(Prompts(n + 1) && Prompts(n + 2)) && !(Prompts(n + 2) && Prompts(n + 3))
    ensures !(Prompts(n + 1) && Prompts(n + 3))
  {
  }

  class MotivationalPrompt {
    var isOpen: bool
    /** The `missedDeadlines` value the effect last ran with (None before the first run). */
    var lastSeen: Option<int>

    constructor()
      ensures !isOpen && lastSeen == None
    {
      isOpen := false;
      lastSeen := None;
    }

    /** The effect: runs when the count differs from the last one it saw. */
    method Evaluate(s: Session)
      modifies this
      ensures lastSeen == Some(s.metrics.missedDeadlines)
      ensures old(lastSeen) != Some(s.metrics.missedDeadlines) && Prompts(s.metrics.missedDeadlines) ==> isOpen
      ensures !(old(lastSeen) != Some(s.metrics.missedDeadlines) && Prompts(s.metrics.missedDeadlines)) ==>
                isOpen == old(isOpen)
    {
      var missed := s.metrics.missedDeadlines;
      if lastSeen != Some(missed) {
        lastSeen := Some(missed);
        if Prompts(missed) {
          isOpen := true;
        }
      }
    }

    /** `handleAcceptHelp`: enter PANIC and close; nothing else in the session changes. */
    method AcceptHelp(s: Session)
      requires s.Valid()
      modifies this, s
      ensures s.Valid()
      ensures s.State() == old(s.State()).(cognitiveLoad := Panic)
      ensures !isOpen && lastSeen == old(lastSeen)
    {
      s.SetCognitiveLoad(Panic);
      isOpen := false;
    }

    /** `handleDismiss`: close only. */
    method Dismiss()
      modifies this
      ensures !isOpen && lastSeen == old(lastSeen)
    {
      isOpen := false;
    }
  }
}
