/**
 * The mastery score and the tier derived from it
 * (src/context/UserContext.tsx:62-66 and 150).
 */
module Mastery {
  import opened Types

  /** The mode effect: BEGINNER below 30, INTERMEDIATE below 80, EXPERIENCED otherwise. */
  function ModeOf(score: int): UserMode {
    if score < 30 then BEGINNER
    else if score < 80 then INTERMEDIATE
    else EXPERIENCED
  }

  /** The position of a tier, 0 for BEGINNER up to 2 for EXPERIENCED. */
  function Rank(m: UserMode): (r: nat)
    ensures r <= 2
  {
    match m
    case BEGINNER => 0
    case INTERMEDIATE => 1
    case EXPERIENCED => 2
  }

  /** `Math.min(s + 5, 100)`, the score after one completion. */
  function CompletionBump(s: int): (r: int)
    ensures s <= 100 ==> s <= r <= 100
    ensures r == 100 || r == s + 5
  {
    if s + 5 < 100 then s + 5 else 100
  }

  /** The score after `k` completions applied one after another. */
  function CappedAdd(s: int, k: nat): int
    decreases k
  {
    if k == 0 then s else CappedAdd(CompletionBump(s), k - 1)
  }

  /** Repeated completions add five each, saturating at 100. */
  lemma {:induction false} CappedAddClosedForm(s: int, k: nat)
    requires s <= 100
    ensures CappedAdd(s, k) == if s + 5 * k < 100 then s + 5 * k else 100
    decreases k
  {
    if k > 0 {
      CappedAddClosedForm(CompletionBump(s), k - 1);
    }
  }

  /** Completions keep a score in 0..100 there and never lower it. */
  lemma {:induction false} CappedAddInRange(s: int, k: nat)
    requires 0 <= s <= 100
    ensures s <= CappedAdd(s, k) <= 100
    decreases k
  {
    if k > 0 {
      CappedAddInRange(CompletionBump(s), k - 1);
    }
  }

  /** The tier is BEGINNER exactly below 30 and EXPERIENCED exactly from 80. */
  lemma ModeThresholds(s: int)
    ensures ModeOf(s) == BEGINNER <==> s < 30
    ensures ModeOf(s) == INTERMEDIATE <==> 30 <= s < 80
    ensures ModeOf(s) == EXPERIENCED <==> 80 <= s
  {
  }

  /** A higher score never gives a lower tier. */
  lemma ModeMonotone(s: int, t: int)
    requires s <= t
    ensures Rank(ModeOf(s)) <= Rank(ModeOf(t))
  {
  }

  /** One completion raises the tier by at most one step and never lowers it. */
  lemma CompletionRaisesTierAtMostOne(s: int)
    requires s <= 100
    ensures Rank(ModeOf(s)) <= Rank(ModeOf(CompletionBump(s))) <= Rank(ModeOf(s)) + 1
  {
    ModeMonotone(s, CompletionBump(s));
  }

  /** Boundary cases: 29 → BEGINNER, 30 → INTERMEDIATE, 79 → INTERMEDIATE, 80 → EXPERIENCED. */
  lemma ModeBoundaries()
    ensures ModeOf(29) == BEGINNER && ModeOf(30) == INTERMEDIATE
    ensures ModeOf(79) == INTERMEDIATE && ModeOf(80) == EXPERIENCED
  {
  }
}
