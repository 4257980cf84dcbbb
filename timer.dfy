/**
 * The focus screen's countdown: whether it runs, the seconds left and the
 * chosen session length.  The once-a-second timer is not modelled; its body
 * is `Tick`, which the caller invokes only while the countdown runs (the
 * timer is invalidated whenever it stops).  Finished or ended sessions are
 * handed to the state holder.
 */
module Timer {
  import opened Model
  import opened Store

  /** `focusDurations`: 15, 25 and 45 minutes, in seconds. */
  const FocusDurations: seq<nat> := [15 * 60, 25 * 60, 45 * 60]

  /** An ended session is recorded only from this many seconds on. */
  const MinimumRecorded: nat := 60

  class FocusTimer {
    var isActive: bool
    var timeRemaining: nat
    var sessionDuration: nat

    /** The session length is one of the offered ones and never less than what is left. */
    ghost predicate Valid()
      reads this
    {
      sessionDuration in FocusDurations && timeRemaining <= sessionDuration
    }

    /** The screen's initial state: idle, 25 minutes. */
    constructor ()
      ensures Valid() && !isActive
      ensures timeRemaining == 25 * 60 && sessionDuration == 25 * 60
    {
      isActive := false;
      timeRemaining := 25 * 60;
      sessionDuration := 25 * 60;
    }

    /** A duration button, shown only while the countdown is stopped. */
    method SelectDuration(d: nat)
      requires Valid() && !isActive && d in FocusDurations
      modifies this
      ensures Valid() && !isActive
      ensures sessionDuration == d && timeRemaining == d
    {
      sessionDuration := d;
      timeRemaining := d;
    }

    /** `startTimer`: the countdown runs from where it stands. */
    method Start()
      requires Valid() && !isActive
      modifies this
      ensures Valid() && isActive
      ensures timeRemaining == old(timeRemaining) && sessionDuration == old(sessionDuration)
    {
      isActive := true;
    }

    /** `pauseTimer`: only the running flag changes; nothing is recorded. */
    method Pause()
      requires Valid()
      modifies this
      ensures Valid() && !isActive
      ensures timeRemaining == old(timeRemaining) && sessionDuration == old(sessionDuration)
    {
      isActive := false;
    }

    /** One second of the running countdown: count down, or finish the session at zero. */
    method Tick(app: AppStateManager, now: Timestamp)
      requires Valid() && isActive && app.Valid()
      modifies this, app
      ensures Valid() && app.Valid() && sessionDuration == old(sessionDuration)
      ensures old(timeRemaining) > 0 ==>
        && isActive && timeRemaining == old(timeRemaining) - 1
        && unchanged(app)
      ensures old(timeRemaining) == 0 ==>
        && !isActive && timeRemaining == sessionDuration
        && app.focusSessions == old(app.focusSessions) + [FocusSession(sessionDuration, now)]
        && app.earnedBadges == old(app.earnedBadges) + BadgesFor(|app.focusSessions|)
        && app.tasks == old(app.tasks) && app.nextId == old(app.nextId)
        && app.hasCompletedOnboarding == old(app.hasCompletedOnboarding)
        && app.persisted == app.Current()
    {
      if timeRemaining > 0 {
        timeRemaining := timeRemaining - 1;
      } else {
        CompleteSession(app, now);
      }
    }

    /** `endTimer`: stop, record the time spent if it is at least a minute, rewind. */
    method End(app: AppStateManager, now: Timestamp)
      requires Valid() && app.Valid()
      modifies this, app
      ensures Valid() && app.Valid() && !isActive
      ensures sessionDuration == old(sessionDuration) && timeRemaining == sessionDuration
      ensures var spent := old(sessionDuration) - old(timeRemaining);
        && (spent >= MinimumRecorded ==>
              && app.focusSessions == old(app.focusSessions) + [FocusSession(spent, now)]
              && app.earnedBadges == old(app.earnedBadges) + BadgesFor(|app.focusSessions|)
              && app.tasks == old(app.tasks) && app.nextId == old(app.nextId)
              && app.hasCompletedOnboarding == old(app.hasCompletedOnboarding)
              && app.persisted == app.Current())
        && (spent < MinimumRecorded ==> unchanged(app))
    {
      isActive := false;
      var timeSpent := sessionDuration - timeRemaining;
      if timeSpent >= MinimumRecorded {
        app.AddFocusSession(timeSpent, now);
      }
      timeRemaining := sessionDuration;
    }

    /** `completeSession`: stop, record the full session length, rewind. */
    method CompleteSession(app: AppStateManager, now: Timestamp)
      requires Valid() && app.Valid()
      modifies this, app
      ensures Valid() && app.Valid() && !isActive
      ensures sessionDuration == old(sessionDuration) && timeRemaining == sessionDuration
      ensures app.focusSessions == old(app.focusSessions) + [FocusSession(sessionDuration, now)]
      ensures app.earnedBadges == old(app.earnedBadges) + BadgesFor(|app.focusSessions|)
      ensures app.tasks == old(app.tasks) && app.nextId == old(app.nextId)
      ensures app.hasCompletedOnboarding == old(app.hasCompletedOnboarding)
      ensures app.persisted == app.Current()
    {
      isActive := false;
      app.AddFocusSession(sessionDuration, now);
      timeRemaining := sessionDuration;
    }
  }
}
