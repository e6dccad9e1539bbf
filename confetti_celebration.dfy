/**
 * The all-done celebration (src/components/ConfettiCelebration.tsx). An
 * effect watches the task list: the first time every task of a non-empty
 * list is completed it shows the celebration, schedules hiding it 4000 ms
 * later and, when the load is PANIC at that moment, schedules a switch to
 * LOW 3500 ms later; any incomplete task re-arms it. Scheduled timeouts are
 * kept as lists of due times and run by `FireTimers`.
 */
module ConfettiCelebration {
  import opened Types
  import opened Workload
  import opened UserContext

  const ExitDelay := 3500
  const HideDelay := 4000

  /** A non-empty list in which every task is completed. */
  predicate AllDone(ts: seq<Task>) {
    |ts| > 0 && |Incomplete(ts)| == 0
  }

  lemma AllDoneMeansEveryTaskCompleted(ts: seq<Task>)
    ensures AllDone(ts) <==> |ts| > 0 && forall t :: t in ts ==> t.completed
  {
    var inc := Incomplete(ts);
    assert |inc| > 0 ==> inc[0] in inc;
  }

  datatype CelebrationState = CelebrationState(
    hasTriggered: bool,
    showCelebration: bool,
    /** Due times of the scheduled switches to LOW. */
    pendingExits: seq<int>,
    /** Due times of the scheduled hides. */
    pendingHides: seq<int>)

  /** Whether an effect run at these tasks and this load fires the celebration. */
  predicate Fires(c: CelebrationState, ts: seq<Task>) {
    AllDone(ts) && !c.hasTriggered
  }

  /** One run of the effect at time `now`. */
  function Step(c: CelebrationState, ts: seq<Task>, load: CognitiveLoad, now: int): (r: CelebrationState)
    ensures |ts| > 0 ==> (r.hasTriggered <==> AllDone(ts))
    ensures ts == [] ==> r == c
    ensures Fires(c, ts) ==>
              (r.showCelebration
               && r.pendingHides == c.pendingHides + [now + HideDelay]
               && r.pendingExits == c.pendingExits + (if load == Panic then [now + ExitDelay] else []))
    ensures !Fires(c, ts) ==>
              (r.showCelebration == c.showCelebration
               && r.pendingHides == c.pendingHides && r.pendingExits == c.pendingExits)
  {
    var fires := Fires(c, ts);
    var c1 := if fires then
      c.(hasTriggered := true, showCelebration := true,
         pendingExits := c.pendingExits + (if load == Panic then [now + ExitDelay] else []),
         pendingHides := c.pendingHides + [now + HideDelay])
    else c;
    if |Incomplete(ts)| > 0 then c1.(hasTriggered := false) else c1
  }

  /**
   * Once fired, the celebration does not fire again while the list stays
   * all done, whatever the load or time of the later runs.
   */
  lemma FiresOnce(c: CelebrationState, ts: seq<Task>, ts': seq<Task>, load: CognitiveLoad, load': CognitiveLoad, now: int, now': int)
    requires Fires(c, ts) && AllDone(ts')
    ensures Step(Step(c, ts, load, now), ts', load', now') == Step(c, ts, load, now)
  {
  }

  /** An incomplete task re-arms the trigger without firing. */
  lemma IncompleteRearms(c: CelebrationState, ts: seq<Task>, load: CognitiveLoad, now: int)
    requires exists t :: t in ts && !t.completed
    ensures !Step(c, ts, load, now).hasTriggered
    ensures Step(c, ts, load, now).pendingHides == c.pendingHides
    ensures Step(c, ts, load, now).pendingExits == c.pendingExits
  {
    var t :| t in ts && !t.completed;
    assert t in Incomplete(ts);
  }

  /** The due times still pending after the timers due by `now` have run, in order. */
  function NotDue(ps: seq<int>, now: int): (r: seq<int>)
    ensures forall x :: x in r <==> x in ps && x > now
    ensures |r| <= |ps|
    decreases |ps|
  {
    if ps == [] then []
    else NotDue(ps[..|ps| - 1], now) + (if ps[|ps| - 1] > now then [ps[|ps| - 1]] else [])
  }

  predicate AnyDue(ps: seq<int>, now: int) {
    exists i :: 0 <= i < |ps| && ps[i] <= now
  }

  /** The load after the due timers have run: LOW if any exit was due, whatever the load then was. */
  function LoadAfter(c: CelebrationState, load: CognitiveLoad, now: int): (r: CognitiveLoad)
    ensures r == load || r == LowLoad
    ensures r != load ==> AnyDue(c.pendingExits, now)
  {
    if AnyDue(c.pendingExits, now) then LowLoad else load
  }

  /** The celebration state after the due timers have run. */
  function AfterTimers(c: CelebrationState, now: int): (r: CelebrationState)
    ensures r.hasTriggered == c.hasTriggered
    ensures r.showCelebration <==> c.showCelebration && !AnyDue(c.pendingHides, now)
    ensures forall x :: x in r.pendingExits ==> x > now
    ensures forall x :: x in r.pendingHides ==> x > now
  {
    c.(showCelebration := c.showCelebration && !AnyDue(c.pendingHides, now),
       pendingExits := NotDue(c.pendingExits, now),
       pendingHides := NotDue(c.pendingHides, now))
  }

  /**
   * Firing under PANIC at `now`: at `now + 3500` the load becomes LOW
   * whatever it is then, while the celebration still shows; at `now + 4000`
   * the celebration is hidden.
   */
  lemma PanicExitThenHide(c: CelebrationState, ts: seq<Task>, now: int, later: CognitiveLoad)
    requires Fires(c, ts) && c.pendingExits == [] && c.pendingHides == []
    ensures LoadAfter(Step(c, ts, Panic, now), later, now + ExitDelay) == LowLoad
    ensures AfterTimers(Step(c, ts, Panic, now), now + ExitDelay).showCelebration
    ensures !AfterTimers(AfterTimers(Step(c, ts, Panic, now), now + ExitDelay), now + HideDelay).showCelebration
  {
    var r := Step(c, ts, Panic, now);
    assert r.pendingExits == [now + ExitDelay] && r.pendingHides == [now + HideDelay];
    var r1 := AfterTimers(r, now + ExitDelay);
    assert r1.pendingHides == [now + HideDelay];
    assert AnyDue(r1.pendingHides, now + HideDelay) by {
      assert r1.pendingHides[0] <= now + HideDelay;
    }
  }

  /** Firing outside PANIC schedules no load change. */
  lemma CalmFiringKeepsLoad(c: CelebrationState, ts: seq<Task>, load: CognitiveLoad, now: int, later: CognitiveLoad, t: int)
    requires load != Panic && c.pendingExits == []
    ensures LoadAfter(Step(c, ts, load, now), later, t) == later
  {
  }

  class Celebration {
    var hasTriggered: bool
    var showCelebration: bool
    var pendingExits: seq<int>
    var pendingHides: seq<int>

    function State(): CelebrationState
      reads this
    {
      CelebrationState(hasTriggered, showCelebration, pendingExits, pendingHides)
    }

    constructor()
      ensures State() == CelebrationState(false, false, [], [])
    {
      hasTriggered := false;
      showCelebration := false;
      pendingExits := [];
      pendingHides := [];
    }

    /** The effect, run at time `now` after the session's tasks or load change. */
    method Evaluate(s: Session, now: int)
      modifies this
      ensures State() == Step(old(State()), s.tasks, s.cognitiveLoad, now)
    {
      var ts := s.tasks;
      if AllDone(ts) && !hasTriggered {
        hasTriggered := true;
        showCelebration := true;
        if s.cognitiveLoad == Panic {
          pendingExits := pendingExits + [now + ExitDelay];
        }
        pendingHides := pendingHides + [now + HideDelay];
      }
      if |Incomplete(ts)| > 0 {
        hasTriggered := false;
      }
    }

    /** Runs every scheduled timeout due by `now`; an exit sets the load to LOW unconditionally. */
    method FireTimers(s: Session, now: int)
      requires s.Valid()
      modifies this, s
      ensures s.Valid()
      ensures State() == AfterTimers(old(State()), now)
      ensures s.State() == old(s.State()).(cognitiveLoad := LoadAfter(old(State()), old(s.cognitiveLoad), now))
    {
      var exits := pendingExits;
      var kept: seq<int> := [];
      var i := 0;
      while i < |exits|
        modifies s
        invariant 0 <= i <= |exits|
        invariant s.Valid()
        invariant kept == NotDue(exits[..i], now)
        invariant s.State() == old(s.State()).(cognitiveLoad := if AnyDue(exits[..i], now) then LowLoad else old(s.cognitiveLoad))
      {
        assert exits[..i + 1][..i] == exits[..i];
        assert exits[..i + 1][i] == exits[i];
        if exits[i] <= now {
          s.SetCognitiveLoad(LowLoad);
        } else {
          kept := kept + [exits[i]];
        }
        i := i + 1;
      }
      assert exits[..i] == exits;
      pendingExits := kept;
      var hides := pendingHides;
      var keptHides: seq<int> := [];
      var j := 0;
      while j < |hides|
        modifies this
        invariant 0 <= j <= |hides|
        invariant keptHides == NotDue(hides[..j], now)
        invariant showCelebration == (old(showCelebration) && !AnyDue(hides[..j], now))
        invariant hasTriggered == old(hasTriggered) && pendingExits == kept
      {
        assert hides[..j + 1][..j] == hides[..j];
        assert hides[..j + 1][j] == hides[j];
        if hides[j] <= now {
          showCelebration := false;
        } else {
          keptHides := keptHides + [hides[j]];
        }
        j := j + 1;
      }
      assert hides[..j] == hides;
      pendingHides := keptHides;
    }

    /** The close button. */
    method Close()
      modifies this
      ensures State() == old(State()).(showCelebration := false)
    {
      showCelebration := false;
    }
  }
}
