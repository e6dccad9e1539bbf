/**
 * The tier-change notification (src/components/FeatureUnlockNotification.tsx).
 * An effect on `userMode` compares it with the mode it remembers: an upward
 * change shows a notification naming what was unlocked, a downward change
 * shows nothing new, and any change (re)starts a 5000 ms timer that clears
 * the notification, cancelling the previous one.
 */
module FeatureUnlock {
  import opened Types
  import opened Mastery

  const ClearDelay := 5000

  datatype Notification = Notification(title: string, message: string)

  /** The notification for a change of tier, if it is one that gets one. */
  function Classify(prev: UserMode, mode: UserMode): (n: Option<Notification>)
    ensures n.Some? <==> (prev, mode) in {(BEGINNER, INTERMEDIATE), (INTERMEDIATE, EXPERIENCED), (BEGINNER, EXPERIENCED)}
    ensures n.Some? && prev == BEGINNER && mode == INTERMEDIATE ==> n.value.title == "Level Up!"
    ensures n.Some? && mode == EXPERIENCED ==> n.value.title == "Expert Status!"
    ensures prev == BEGINNER && mode == INTERMEDIATE ==> n == Some(Notification("Level Up!", "You've unlocked the Calendar view."))
    ensures prev == INTERMEDIATE && mode == EXPERIENCED ==>
              n == Some(Notification("Expert Status!", "Dashboard and Quick Add are now available."))
    ensures prev == BEGINNER && mode == EXPERIENCED ==>
              n == Some(Notification("Expert Status!", "You've unlocked all advanced features."))
  {
    if prev == BEGINNER && mode == INTERMEDIATE then
      Some(Notification("Level Up!", "You've unlocked the Calendar view."))
    else if prev == INTERMEDIATE && mode == EXPERIENCED then
      Some(Notification("Expert Status!", "Dashboard and Quick Add are now available."))
    else if prev == BEGINNER && mode == EXPERIENCED then
      Some(Notification("Expert Status!", "You've unlocked all advanced features."))
    else None
  }

  /** A notification is produced exactly for the upward changes. */
  lemma NotifiesExactlyUpward(prev: UserMode, mode: UserMode)
    ensures Classify(prev, mode).Some? <==> Rank(prev) < Rank(mode)
  {
  }

  datatype NotifierState = NotifierState(
    prevMode: UserMode,
    notification: Option<Notification>,
    /** The due time of the pending clear, if one is scheduled. */
    clearAt: Option<int>)

  /** One run of the effect at time `now` with the current mode. */
  function OnMode(st: NotifierState, mode: UserMode, now: int): (r: NotifierState)
    ensures r.prevMode == mode
    ensures st.prevMode == mode ==> r == st
    ensures st.prevMode != mode ==> r.clearAt == Some(now + ClearDelay)
    ensures st.prevMode != mode && Rank(mode) < Rank(st.prevMode) ==> r.notification == st.notification
  {
    if st.prevMode == mode then st
    else
      var n := Classify(st.prevMode, mode);
      NotifierState(mode, if n.Some? then n else st.notification, Some(now + ClearDelay))
  }

  /** The pending clear, when due. */
  function OnTimer(st: NotifierState, now: int): (r: NotifierState)
    ensures r.prevMode == st.prevMode
    ensures st.clearAt.Some? && st.clearAt.value <= now ==> r.notification == None && r.clearAt == None
    ensures !(st.clearAt.Some? && st.clearAt.value <= now) ==> r == st
  {
    if st.clearAt.Some? && st.clearAt.value <= now then st.(notification := None, clearAt := None) else st
  }

  /** A new notification is cleared 5000 ms after the change, and not before. */
  lemma ClearedAfterDelay(st: NotifierState, mode: UserMode, now: int, t: int)
    requires st.prevMode != mode
    ensures OnTimer(OnMode(st, mode, now), now + ClearDelay).notification == None
    ensures t < now + ClearDelay ==> OnTimer(OnMode(st, mode, now), t) == OnMode(st, mode, now)
  {
  }

  /**
   * A later change restarts the timer: the clear scheduled by the earlier
   * change no longer fires at its own time.
   */
  lemma LaterChangeRestartsTimer(st: NotifierState, m1: UserMode, m2: UserMode, t1: int, t2: int)
    requires st.prevMode != m1 && m1 != m2 && t1 < t2
    requires Rank(st.prevMode) < Rank(m1) && Rank(m1) < Rank(m2)
    ensures OnMode(OnMode(st, m1, t1), m2, t2).clearAt == Some(t2 + ClearDelay)
    ensures OnTimer(OnMode(OnMode(st, m1, t1), m2, t2), t1 + ClearDelay).notification.Some?
  {
  }

  class UnlockNotifier {
    var prevMode: UserMode
    var notification: Option<Notification>
    var clearAt: Option<int>

    function State(): NotifierState
      reads this
    {
      NotifierState(prevMode, notification, clearAt)
    }

    /** `useRef(userMode)` with the mode at mount. */
    constructor(mode: UserMode)
      ensures State() == NotifierState(mode, None, None)
    {
      prevMode := mode;
      notification := None;
      clearAt := None;
    }

    method Evaluate(mode: UserMode, now: int)
      modifies this
      ensures State() == OnMode(old(State()), mode, now)
    {
      if prevMode != mode {
        var n := Classify(prevMode, mode);
        if n.Some? {
          notification := n;
        }
        prevMode := mode;
        clearAt := Some(now + ClearDelay);
      }
    }

    method FireTimer(now: int)
      modifies this
      ensures State() == OnTimer(old(State()), now)
    {
      if clearAt.Some? && clearAt.value <= now {
        notification := None;
        clearAt := None;
      }
    }

    /** The close button: the notification goes, the pending clear stays scheduled. */
    method Close()
      modifies this
      ensures State() == old(State()).(notification := None)
    {
      notification := None;
    }
  }
}
