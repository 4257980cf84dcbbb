/**
 * The domain records of the to-do and focus-timer app: task priorities and
 * categories with their raw values, tasks, focus sessions and badge tiers,
 * together with the read-only properties the records derive from their fields.
 * Dates are whole-second timestamps; the current time is always a parameter.
 */
module Model {
  import opened Wrappers
  import opened Text

  type Timestamp = int
  type TaskId = nat

  // ---------------------------------------------------------------------------
  // Priorities

  datatype Priority = Low | Medium | High | Urgent

  /** `TaskPriority.allCases`, in declaration order. */
  const AllPriorities: seq<Priority> := [Low, Medium, High, Urgent]

  function PriorityRaw(p: Priority): string {
    match p
    case Low => "Low"
    case Medium => "Medium"
    case High => "High"
    case Urgent => "Urgent"
  }

  /** `TaskPriority(rawValue:)`. */
  function ParsePriority(s: string): Option<Priority> {
    if s == "Low" then Some(Low)
    else if s == "Medium" then Some(Medium)
    else if s == "High" then Some(High)
    else if s == "Urgent" then Some(Urgent)
    else None
  }

  lemma ParsePriorityInvertsRaw(s: string, p: Priority)
    ensures ParsePriority(s) == Some(p) <==> PriorityRaw(p) == s
  {
  }

  /** `TaskPriority.allCases.firstIndex(of: p)`: the position of `p` in `allCases`. */
  function PriorityIndex(p: Priority): (i: nat)
    ensures i < |AllPriorities| && AllPriorities[i] == p
    ensures forall j :: 0 <= j < i ==> AllPriorities[j] != p
  {
    match p
    case Low => 0
    case Medium => 1
    case High => 2
    case Urgent => 3
  }

  // ---------------------------------------------------------------------------
  // Categories

  datatype Category = Work | Personal | Health | Learning | Shopping | Finance | Travel | Home

  const AllCategories: seq<Category> := [Work, Personal, Health, Learning, Shopping, Finance, Travel, Home]

  function CategoryRaw(c: Category): string {
    match c
    case Work => "Work"
    case Personal => "Personal"
    case Health => "Health"
    case Learning => "Learning"
    case Shopping => "Shopping"
    case Finance => "Finance"
    case Travel => "Travel"
    case Home => "Home"
  }

  /** `TaskCategory(rawValue:)`. */
  function ParseCategory(s: string): Option<Category> {
    if s == "Work" then Some(Work)
    else if s == "Personal" then Some(Personal)
    else if s == "Health" then Some(Health)
    else if s == "Learning" then Some(Learning)
    else if s == "Shopping" then Some(Shopping)
    else if s == "Finance" then Some(Finance)
    else if s == "Travel" then Some(Travel)
    else if s == "Home" then Some(Home)
    else None
  }

  lemma ParseCategoryInvertsRaw(s: string, c: Category)
    ensures ParseCategory(s) == Some(c) <==> CategoryRaw(c) == s
  {
  }

  // ---------------------------------------------------------------------------
  // Tasks

  datatype Task = Task(
    id: TaskId,
    title: string,
    notes: string,
    isCompleted: bool,
    priority: Priority,
    category: Category,
    dueDate: Option<Timestamp>,
    createdAt: Timestamp,
    completedAt: Option<Timestamp>,
    estimatedDuration: int)  // minutes

  /** A completion time is recorded exactly when a task is completed. */
  predicate CompletionConsistent(t: Task) {
    t.completedAt.Some? <==> t.isCompleted
  }

  /**
   * The memberwise initialiser: the caller's fields, a fresh identity, not
   * completed, created now.
   */
  function NewTask(id: TaskId, title: string, notes: string, priority: Priority, category: Category,
                   dueDate: Option<Timestamp>, estimatedDuration: int, now: Timestamp): (t: Task)
    ensures t.id == id && t.createdAt == now
    ensures !t.isCompleted && t.completedAt == None && CompletionConsistent(t)
    ensures t.title == title && t.notes == notes && t.priority == priority && t.category == category
    ensures t.dueDate == dueDate && t.estimatedDuration == estimatedDuration
  {
    Task(id, title, notes, false, priority, category, dueDate, now, None, estimatedDuration)
  }

  /** What `toggleTask` does to a task it finds: flip the flag, stamp or clear the time. */
  function ToggleCompletion(t: Task, now: Timestamp): (r: Task)
    ensures r.isCompleted == !t.isCompleted
    ensures r.completedAt == (if r.isCompleted then Some(now) else None)
    ensures CompletionConsistent(r)
    ensures r.(isCompleted := t.isCompleted, completedAt := t.completedAt) == t
  {
    var done := !t.isCompleted;
    t.(isCompleted := done, completedAt := if done then Some(now) else None)
  }

  /**
   * Toggling twice restores the flag; the completion time afterwards is the
   * second toggle's time for a completed task and absent for an open one, so
   * an open task with no completion time comes back unchanged.
   */
  lemma ToggleCompletionTwice(t: Task, now1: Timestamp, now2: Timestamp)
    ensures ToggleCompletion(ToggleCompletion(t, now1), now2).isCompleted == t.isCompleted
    ensures ToggleCompletion(ToggleCompletion(t, now1), now2).completedAt
            == (if t.isCompleted then Some(now2) else None)
    ensures !t.isCompleted && CompletionConsistent(t) ==> ToggleCompletion(ToggleCompletion(t, now1), now2) == t
  {
  }

  /** `Task.isOverdue`: a due date, not completed, and the due date already passed. */
  predicate IsOverdue(t: Task, now: Timestamp) {
    t.dueDate.Some? && !t.isCompleted && now > t.dueDate.value
  }

  // ---------------------------------------------------------------------------
  // Duration texts

  /** `Task.estimatedDurationText`: "Xm" under an hour, else "Xh" or "Xh Ym". */
  function EstimatedDurationText(t: Task): string {
    var d := t.estimatedDuration;
    if d < 60 then IntToString(d) + "m"
    else
      var hours := d / 60;
      var minutes := d % 60;
      if minutes == 0 then IntToString(hours) + "h"
      else IntToString(hours) + "h " + IntToString(minutes) + "m"
  }

  /**
   * Reads back a duration text of the forms "Xm", "Xh" and "Xh Ym" as a number
   * of minutes.  It is the reference reading both duration texts are proved against.
   */
  function ParseDurationText(s: string): Option<int> {
    match ScanInt(s)
    case None => None
    case Some((a, rest)) => ParseDurationUnit(a, rest)
  }

  /** The part of a duration text after its leading number `a`. */
  function ParseDurationUnit(a: int, rest: string): Option<int> {
    if rest == "m" then Some(a)
    else if rest == "h" then Some(a * 60)
    else if |rest| >= 2 && rest[..2] == "h " then
      match ScanNat(rest[2..])
      case Some((b, tail)) => if tail == "m" then Some(a * 60 + b) else None
      case None => None
    else None
  }

  lemma MinutesUnitValue(hours: int, minutes: nat)
    ensures ParseDurationUnit(hours, "h " + NatToString(minutes) + "m") == Some(hours * 60 + minutes)
  {
    var tail := NatToString(minutes) + "m";
    var rest := "h " + tail;
    assert rest == "h " + NatToString(minutes) + "m";
    assert rest[0] == 'h' && |rest| > 2;
    assert rest[..2] == "h " && rest[2..] == tail;
    ScanNatToString(minutes, "m");
    assert ScanNat(rest[2..]) == Some((minutes, "m"));
  }

  /** Reading an hours-and-minutes text back gives hours * 60 + minutes. */
  lemma HoursMinutesTextValue(hours: nat, minutes: nat)
    ensures ParseDurationText(IntToString(hours) + "h " + IntToString(minutes) + "m") == Some(hours * 60 + minutes)
  {
    var rest := "h " + NatToString(minutes) + "m";
    assert IntToString(hours) + "h " + IntToString(minutes) + "m" == IntToString(hours) + rest;
    ScanIntToString(hours, rest);
    MinutesUnitValue(hours, minutes);
  }

  /** The duration text of a task always reads back as its estimated duration. */
  lemma EstimatedDurationTextRoundTrip(t: Task)
    ensures ParseDurationText(EstimatedDurationText(t)) == Some(t.estimatedDuration)
  {
    var d := t.estimatedDuration;
    if d < 60 {
      ScanIntToString(d, "m");
    } else if d % 60 == 0 {
      ScanIntToString(d / 60, "h");
      assert IntToString(d / 60) + "h" != IntToString(d / 60) + "m" by {
        var n := |IntToString(d / 60)|;
        assert (IntToString(d / 60) + "h")[n] == 'h';
      }
    } else {
      HoursMinutesTextValue(d / 60, d % 60);
    }
  }

  /** Hence two tasks with different estimated durations never show the same text. */
  lemma EstimatedDurationTextInjective(t1: Task, t2: Task)
    requires EstimatedDurationText(t1) == EstimatedDurationText(t2)
    ensures t1.estimatedDuration == t2.estimatedDuration
  {
    EstimatedDurationTextRoundTrip(t1);
    EstimatedDurationTextRoundTrip(t2);
  }

  // ---------------------------------------------------------------------------
  // Focus sessions and badges

  /** A recorded focus session: whole seconds spent and when it was recorded. */
  datatype FocusSession = FocusSession(duration: nat, completedAt: Timestamp)

  datatype Badge = Bronze | Silver | Gold | Platinum

  /** `Badge.allCases`, in declaration order. */
  const AllBadges: seq<Badge> := [Bronze, Silver, Gold, Platinum]

  function BadgeRaw(b: Badge): string {
    match b
    case Bronze => "Bronze Focus"
    case Silver => "Silver Focus"
    case Gold => "Gold Focus"
    case Platinum => "Platinum Focus"
  }

  /** `Badge(rawValue:)`. */
  function ParseBadge(s: string): Option<Badge> {
    if s == "Bronze Focus" then Some(Bronze)
    else if s == "Silver Focus" then Some(Silver)
    else if s == "Gold Focus" then Some(Gold)
    else if s == "Platinum Focus" then Some(Platinum)
    else None
  }

  lemma ParseBadgeInvertsRaw(s: string, b: Badge)
    ensures ParseBadge(s) == Some(b) <==> BadgeRaw(b) == s
  {
  }

  lemma AllBadgesComplete(b: Badge)
    ensures b in AllBadges
  {
  }

  lemma BadgeRawInjective(b1: Badge, b2: Badge)
    requires BadgeRaw(b1) == BadgeRaw(b2)
    ensures b1 == b2
  {
  }

  /** `Badge.requirement`: the number of sessions that earns the tier. */
  function Requirement(b: Badge): nat {
    match b
    case Bronze => 5
    case Silver => 15
    case Gold => 30
    case Platinum => 50
  }

  /** The tiers a session count reaches. */
  function BadgesFor(sessionCount: nat): (r: set<Badge>)
    ensures forall b :: b in r <==> sessionCount >= Requirement(b)
  {
    set b | b in AllBadges && sessionCount >= Requirement(b)
  }

  /** More sessions never reach fewer tiers. */
  lemma BadgesForMonotone(c1: nat, c2: nat)
    requires c1 <= c2
    ensures BadgesFor(c1) <= BadgesFor(c2)
  {
  }
}
