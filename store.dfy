/**
 * The app's state holder: the ordered task list, the focus sessions, the
 * earned badges and the onboarding flag, with the operations the screens call.
 * Every operation that changes state writes the snapshot back to the store
 * (`persisted`); loading happens once, when the holder is created.
 */
module Store {
  import opened Wrappers
  import opened Text
  import opened Model
  import opened Codec
  import opened TaskList
  import opened Sessions

  class AppStateManager {
    var hasCompletedOnboarding: bool
    var tasks: seq<Task>
    var focusSessions: seq<FocusSession>
    var earnedBadges: set<Badge>
    /** The next fresh identity: the model of `UUID()`. */
    var nextId: TaskId
    /** What the key-value store holds. */
    ghost var persisted: Snapshot

    /**
     * Identities are distinct and all below `nextId`; every tier the session
     * count reaches has been earned (more may have been loaded).
     */
    ghost predicate Valid()
      reads this
    {
      && IdsDistinct(tasks)
      && (forall i :: 0 <= i < |tasks| ==> tasks[i].id < nextId)
      && BadgesFor(|focusSessions|) <= earnedBadges
    }

    /** The snapshot `saveData` would write for the current state. */
    ghost function Current(): Snapshot
      reads this
    {
      Save(hasCompletedOnboarding, tasks, focusSessions, earnedBadges)
    }

    /** `init()`, which runs `loadData`: decode each key on its own, then update the badges. */
    constructor (stored: Snapshot)
      ensures Valid()
      ensures hasCompletedOnboarding == Load(stored).onboarding
      ensures tasks == Load(stored).tasks && focusSessions == Load(stored).sessions
      ensures earnedBadges == Load(stored).badges + BadgesFor(|Load(stored).sessions|)
      ensures persisted == stored
    {
      var loaded := Load(stored);
      LoadedIds(stored);
      var badges := UpdateBadges(loaded.badges, |loaded.sessions|);
      hasCompletedOnboarding := loaded.onboarding;
      tasks := loaded.tasks;
      focusSessions := loaded.sessions;
      nextId := |loaded.tasks|;
      persisted := stored;
      earnedBadges := badges;
    }

    method CompleteOnboarding()
      requires Valid()
      modifies this
      ensures Valid() && hasCompletedOnboarding
      ensures tasks == old(tasks) && focusSessions == old(focusSessions)
      ensures earnedBadges == old(earnedBadges) && nextId == old(nextId)
      ensures persisted == Current()
    {
      hasCompletedOnboarding := true;
      persisted := Current();
    }

    /** Appends a new open task with a fresh identity, created now; earlier tasks keep their places. */
    method AddTask(title: string, notes: string, priority: Priority, category: Category,
                   dueDate: Option<Timestamp>, estimatedDuration: int, now: Timestamp)
      requires Valid()
      modifies this
      ensures Valid()
      ensures tasks == old(tasks) + [NewTask(old(nextId), title, notes, priority, category, dueDate, estimatedDuration, now)]
      ensures forall i :: 0 <= i < |old(tasks)| ==> old(tasks)[i].id != old(nextId)
      ensures nextId == old(nextId) + 1
      ensures focusSessions == old(focusSessions) && earnedBadges == old(earnedBadges)
      ensures hasCompletedOnboarding == old(hasCompletedOnboarding)
      ensures persisted == Current()
      ensures old(AllConsistent(tasks)) ==> AllConsistent(tasks)
    {
      var task := NewTask(nextId, title, notes, priority, category, dueDate, estimatedDuration, now);
      tasks := tasks + [task];
      nextId := nextId + 1;
      persisted := Current();
    }

    /**
     * Toggles the first task with identity `id`; an absent identity changes
     * nothing and writes nothing.
     */
    method ToggleTask(id: TaskId, now: Timestamp)
      requires Valid()
      modifies this
      ensures Valid()
      ensures tasks == ToggleById(old(tasks), id, now)
      ensures focusSessions == old(focusSessions) && earnedBadges == old(earnedBadges)
      ensures hasCompletedOnboarding == old(hasCompletedOnboarding) && nextId == old(nextId)
      ensures persisted == if FirstIndexOf(old(tasks), id).Some? then Current() else old(persisted)
      ensures old(AllConsistent(tasks)) ==> AllConsistent(tasks)
    {
      if AllConsistent(tasks) { ToggleKeepsConsistency(tasks, id, now); }
      var index := FirstIndexOf(tasks, id);
      if index.Some? {
        var i := index.value;
        tasks := tasks[i := ToggleCompletion(tasks[i], now)];
        persisted := Current();
      }
    }

    /** Removes every task with identity `id`, keeping the order of the rest. */
    method DeleteTask(id: TaskId)
      requires Valid()
      modifies this
      ensures Valid()
      ensures tasks == RemoveById(old(tasks), id)
      ensures focusSessions == old(focusSessions) && earnedBadges == old(earnedBadges)
      ensures hasCompletedOnboarding == old(hasCompletedOnboarding) && nextId == old(nextId)
      ensures persisted == Current()
      ensures old(AllConsistent(tasks)) ==> AllConsistent(tasks)
    {
      RemoveByIdKeepsIds(tasks, id, nextId);
      if AllConsistent(tasks) { RemoveKeepsConsistency(tasks, id); }
      tasks := RemoveById(tasks, id);
      persisted := Current();
    }

    /** Records one session of `duration` seconds completed now, then updates the badges. */
    method AddFocusSession(duration: nat, now: Timestamp)
      requires Valid()
      modifies this
      ensures Valid()
      ensures focusSessions == old(focusSessions) + [FocusSession(duration, now)]
      ensures earnedBadges == old(earnedBadges) + BadgesFor(|focusSessions|)
      ensures tasks == old(tasks) && nextId == old(nextId)
      ensures hasCompletedOnboarding == old(hasCompletedOnboarding)
      ensures persisted == Current()
    {
      focusSessions := focusSessions + [FocusSession(duration, now)];
      earnedBadges := UpdateBadges(earnedBadges, |focusSessions|);
      persisted := Current();
    }

    /** Clears tasks, sessions and badges together, then writes once. */
    method ResetProgress()
      requires Valid()
      modifies this
      ensures Valid()
      ensures tasks == [] && focusSessions == [] && earnedBadges == {}
      ensures hasCompletedOnboarding == old(hasCompletedOnboarding) && nextId == old(nextId)
      ensures persisted == Current()
    {
      tasks := [];
      focusSessions := [];
      earnedBadges := {};
      assert BadgesFor(0) == {} by { BadgesForMonotone(0, 4); BadgeThresholds(); }
      persisted := Current();
    }

    function CompletedTasksCount(): (n: nat)
      reads this
      ensures n <= TotalTasksCount()
    {
      CompletedCount(tasks)
    }

    function TotalTasksCount(): nat
      reads this
    {
      |tasks|
    }

    function CompletionPercentage(): (r: Ratio)
      reads this
      ensures r.den > 0 && r.num <= r.den
      ensures r.num * TotalTasksCount() == CompletedTasksCount() * r.den
      ensures TotalTasksCount() == 0 ==> r.num == 0
    {
      CompletionRatio(tasks)
    }

    function TotalFocusTime(): nat
      reads this
    {
      TotalDuration(focusSessions)
    }
  }

  /** Removal keeps identities distinct and below the generator. */
  /** Removal keeps completion times in step with their flags. */
  lemma RemoveKeepsConsistency(ts: seq<Task>, id: TaskId)
    requires AllConsistent(ts)
    ensures AllConsistent(RemoveById(ts, id))
  {
    var r := RemoveById(ts, id);
    RemoveByIdContents(ts, id);
    forall i | 0 <= i < |r| ensures CompletionConsistent(r[i]) {
      assert r[i] in ts;
    }
  }

  lemma RemoveByIdKeepsIds(ts: seq<Task>, id: TaskId, bound: nat)
    requires IdsDistinct(ts) && forall i :: 0 <= i < |ts| ==> ts[i].id < bound
    ensures IdsDistinct(RemoveById(ts, id)) && forall i :: 0 <= i < |RemoveById(ts, id)| ==> RemoveById(ts, id)[i].id < bound
  {
    RemoveDistinct(ts, id);
    RemoveByIdContents(ts, id);
    var r := RemoveById(ts, id);
    forall i | 0 <= i < |r| ensures r[i].id < bound {
      assert r[i] in ts;
    }
  }

  lemma {:induction false} RemoveDistinct(ts: seq<Task>, id: TaskId)
    requires IdsDistinct(ts)
    ensures IdsDistinct(RemoveById(ts, id))
    decreases |ts|
  {
    if ts != [] {
      RemoveDistinct(ts[1..], id);
      RemoveByIdContents(ts[1..], id);
      var rest := RemoveById(ts[1..], id);
      if ts[0].id != id {
        forall j | 0 <= j < |rest| ensures rest[j].id != ts[0].id {
          assert rest[j] in ts[1..];
        }
      }
    }
  }

  /**
   * The new-task sheet's Add button: disabled while the trimmed title is
   * empty; otherwise it adds a task with title and notes trimmed.
   */
  method SubmitNewTask(app: AppStateManager, title: string, notes: string, priority: Priority,
                       category: Category, dueDate: Option<Timestamp>, estimatedDuration: int,
                       now: Timestamp) returns (added: bool)
    requires app.Valid()
    modifies app
    ensures app.Valid()
    ensures added <==> Trim(title) != []
    ensures added ==> app.tasks == old(app.tasks) + [NewTask(old(app.nextId), Trim(title), Trim(notes),
                                                             priority, category, dueDate, estimatedDuration, now)]
    ensures added ==> app.nextId == old(app.nextId) + 1 && app.persisted == app.Current()
    ensures !added ==> app.tasks == old(app.tasks) && app.nextId == old(app.nextId)
    ensures !added ==> app.persisted == old(app.persisted)
    ensures app.focusSessions == old(app.focusSessions) && app.earnedBadges == old(app.earnedBadges)
    ensures app.hasCompletedOnboarding == old(app.hasCompletedOnboarding)
  {
    added := Trim(title) != [];
    if added {
      app.AddTask(Trim(title), Trim(notes), priority, category, dueDate, estimatedDuration, now);
    }
  }
}
