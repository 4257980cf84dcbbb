/**
 * What the store derives from its focus sessions: the total focus time and
 * the badge update that runs after every new session and after loading.
 */
module Sessions {
  import opened Model

  /** `totalFocusTime`: the sum of all session durations, in seconds. */
  function TotalDuration(ss: seq<FocusSession>): nat
    decreases |ss|
  {
    if ss == [] then 0 else ss[0].duration + TotalDuration(ss[1..])
  }

  /** Appending a session adds exactly its duration to the total. */
  lemma {:induction false} TotalDurationAppend(ss: seq<FocusSession>, s: FocusSession)
    ensures TotalDuration(ss + [s]) == TotalDuration(ss) + s.duration
    decreases |ss|
  {
    if ss != [] {
      assert (ss + [s])[1..] == ss[1..] + [s];
      TotalDurationAppend(ss[1..], s);
    }
  }

  /** The total is at least every single session's duration. */
  lemma {:induction false} TotalDurationBounds(ss: seq<FocusSession>, i: nat)
    requires i < |ss|
    ensures ss[i].duration <= TotalDuration(ss)
    decreases |ss|
  {
    if i > 0 {
      TotalDurationBounds(ss[1..], i - 1);
    }
  }

  /**
   * `updateBadges`: walk `Badge.allCases` and insert every tier whose
   * requirement the session count meets.  Tiers are only ever added.
   */
  method UpdateBadges(earned: set<Badge>, sessionCount: nat) returns (r: set<Badge>)
    ensures r == earned + BadgesFor(sessionCount)
  {
    r := earned;
    for i := 0 to |AllBadges|
      invariant r == earned + (set b | b in AllBadges[..i] && sessionCount >= Requirement(b))
    {
      var badge := AllBadges[i];
      assert AllBadges[..i + 1] == AllBadges[..i] + [badge];
      if sessionCount >= Requirement(badge) {
        r := r + {badge};
      }
    }
    assert AllBadges[..|AllBadges|] == AllBadges;
  }

  /** Updating twice with the same count is the same as once. */
  lemma UpdateIdempotent(earned: set<Badge>, sessionCount: nat)
    ensures (earned + BadgesFor(sessionCount)) + BadgesFor(sessionCount) == earned + BadgesFor(sessionCount)
  {
  }

  /** Tiers reached at 5, 15, 30 and 50 sessions. */
  lemma BadgeThresholds()
    ensures BadgesFor(4) == {}
    ensures BadgesFor(5) == {Bronze}
    ensures BadgesFor(15) == {Bronze, Silver}
    ensures BadgesFor(30) == {Bronze, Silver, Gold}
    ensures BadgesFor(50) == {Bronze, Silver, Gold, Platinum}
  {
    assert Bronze in BadgesFor(5);
    assert Silver in BadgesFor(15);
    assert Gold in BadgesFor(30);
    assert Platinum in BadgesFor(50);
  }
}
