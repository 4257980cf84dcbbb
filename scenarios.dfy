/**
 * End-to-end runs of the state holder and the countdown, from a fresh store
 * with nothing saved in it.
 */
module Scenarios {
  import opened Wrappers
  import opened Model
  import opened Codec
  import opened Store
  import opened Sessions
  import opened Timer

  const NothingStored: Snapshot := Snapshot(None, None, None, None)

  /** Adding "Buy milk" for 15 minutes: one task, shown as "15m", none completed. */
  method FirstTask(now: Timestamp) returns (count: nat, text: string, completed: nat)
    ensures count == 1 && text == "15m" && completed == 0
  {
    var app := new AppStateManager(NothingStored);
    app.AddTask("Buy milk", "", Medium, Personal, None, 15, now);
    count := app.TotalTasksCount();
    text := EstimatedDurationText(app.tasks[0]);
    completed := app.CompletedTasksCount();
  }

  /**
   * A 25-minute session left running: after 1500 ticks the clock reads zero
   * and nothing is recorded yet; the next tick records one full session and
   * rewinds the clock.
   */
  method RunFullSession(now: Timestamp) returns (atZero: seq<FocusSession>, sessions: seq<FocusSession>, remaining: nat)
    ensures atZero == [] && sessions == [FocusSession(1500, now)] && remaining == 1500
  {
    var app := new AppStateManager(NothingStored);
    var timer := new FocusTimer();
    timer.Start();
    var n := 0;
    while n < 1500
      invariant 0 <= n <= 1500
      invariant timer.Valid() && timer.isActive && timer.sessionDuration == 1500
      invariant timer.timeRemaining == 1500 - n
      invariant app.Valid() && app.focusSessions == []
    {
      timer.Tick(app, now);
      n := n + 1;
    }
    atZero := app.focusSessions;
    timer.Tick(app, now);
    sessions := app.focusSessions;
    remaining := timer.timeRemaining;
  }

  /** Ending after 30 seconds records nothing and rewinds the clock. */
  method EndEarly(now: Timestamp) returns (sessions: seq<FocusSession>, remaining: nat, running: bool)
    ensures sessions == [] && remaining == 1500 && !running
  {
    var app := new AppStateManager(NothingStored);
    var timer := new FocusTimer();
    timer.Start();
    var n := 0;
    while n < 30
      invariant 0 <= n <= 30
      invariant timer.Valid() && timer.isActive && timer.sessionDuration == 1500
      invariant timer.timeRemaining == 1500 - n
      invariant app.Valid() && app.focusSessions == []
    {
      timer.Tick(app, now);
      n := n + 1;
    }
    timer.End(app, now);
    sessions := app.focusSessions;
    remaining := timer.timeRemaining;
    running := timer.isActive;
  }

  /** Five sessions earn bronze, fifteen add silver, a reset clears them all. */
  method EarnBadges(now: Timestamp) returns (afterFive: set<Badge>, afterFifteen: set<Badge>, afterReset: set<Badge>)
    ensures afterFive == {Bronze} && afterFifteen == {Bronze, Silver} && afterReset == {}
  {
    var app := new AppStateManager(NothingStored);
    afterFive := {};
    var n := 0;
    while n < 15
      invariant 0 <= n <= 15
      invariant app.Valid() && |app.focusSessions| == n
      invariant app.earnedBadges == BadgesFor(n)
      invariant n >= 5 ==> afterFive == {Bronze}
    {
      app.AddFocusSession(25 * 60, now);
      n := n + 1;
      BadgesForMonotone(n - 1, n);
      if n == 5 {
        afterFive := app.earnedBadges;
        BadgeThresholds();
      }
    }
    afterFifteen := app.earnedBadges;
    BadgeThresholds();
    app.ResetProgress();
    afterReset := app.earnedBadges;
  }
}
