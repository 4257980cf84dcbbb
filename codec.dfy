/**
 * The keyed coding of tasks, focus sessions and earned badges, and the
 * four-key snapshot the app keeps in its key-value store.  Records stand for
 * the decoded keyed containers, not for JSON bytes: a field is `None` when its
 * key is absent (or null), and the enum fields carry their raw strings.
 */
module Codec {
  import opened Wrappers
  import opened Model

  datatype DecodeError = KeyNotFound(key: string) | DataCorrupted(key: string)

  /** A task's keyed container under its coding keys; `id` is not one of them. */
  datatype TaskRecord = TaskRecord(
    title: Option<string>,
    notes: Option<string>,
    isCompleted: Option<bool>,
    priority: Option<string>,
    category: Option<string>,
    dueDate: Option<Timestamp>,
    createdAt: Option<Timestamp>,
    completedAt: Option<Timestamp>,
    estimatedDuration: Option<int>)

  /** `Task.encode(to:)`: every coded field, the two optional dates only when present. */
  function EncodeTask(t: Task): (r: TaskRecord)
    ensures r.title.Some? && r.notes.Some? && r.isCompleted.Some? && r.priority.Some?
    ensures r.category.Some? && r.createdAt.Some? && r.estimatedDuration.Some?
  {
    TaskRecord(Some(t.title), Some(t.notes), Some(t.isCompleted), Some(PriorityRaw(t.priority)),
               Some(CategoryRaw(t.category)), t.dueDate, Some(t.createdAt), t.completedAt,
               Some(t.estimatedDuration))
  }

  /** `decodeIfPresent` of an enum: absent gives the default, an unknown raw value is an error. */
  function DecodePriority(raw: Option<string>): Result<Priority, DecodeError> {
    match raw
    case None => Ok(Medium)
    case Some(s) =>
      match ParsePriority(s)
      case Some(p) => Ok(p)
      case None => Err(DataCorrupted("priority"))
  }

  function DecodeCategory(raw: Option<string>): Result<Category, DecodeError> {
    match raw
    case None => Ok(Personal)
    case Some(s) =>
      match ParseCategory(s)
      case Some(c) => Ok(c)
      case None => Err(DataCorrupted("category"))
  }

  /**
   * `Task.init(from:)`, given the identity the new value receives.  Keys are
   * read in the source's order and the first failure is the error.
   */
  function DecodeTask(r: TaskRecord, id: TaskId): (res: Result<Task, DecodeError>)
    ensures res.Ok? ==> res.value.id == id
  {
    if r.title.None? then Err(KeyNotFound("title"))
    else if r.isCompleted.None? then Err(KeyNotFound("isCompleted"))
    else match DecodePriority(r.priority)
      case Err(e) => Err(e)
      case Ok(priority) =>
        match DecodeCategory(r.category)
        case Err(e) => Err(e)
        case Ok(category) =>
          if r.createdAt.None? then Err(KeyNotFound("createdAt"))
          else Ok(Task(id, r.title.value,
                       if r.notes.Some? then r.notes.value else "",
                       r.isCompleted.value, priority, category, r.dueDate, r.createdAt.value,
                       r.completedAt, if r.estimatedDuration.Some? then r.estimatedDuration.value else 30))
  }

  /** Decoding fails exactly when a required key is missing or an enum raw value is unknown. */
  lemma DecodeTaskFailure(r: TaskRecord, id: TaskId)
    ensures DecodeTask(r, id).Err? <==>
      || r.title.None? || r.isCompleted.None? || r.createdAt.None?
      || (r.priority.Some? && ParsePriority(r.priority.value).None?)
      || (r.category.Some? && ParseCategory(r.category.value).None?)
  {
  }

  /**
   * A decoded task carries the stored value of every present key; each
   * missing optional key takes the initialiser's default, on its own.
   */
  lemma DecodeTaskDefaults(r: TaskRecord, id: TaskId)
    requires DecodeTask(r, id).Ok?
    ensures r.title.Some? && r.isCompleted.Some? && r.createdAt.Some?
    ensures var t := DecodeTask(r, id).value;
      && t.title == r.title.value && t.isCompleted == r.isCompleted.value && t.createdAt == r.createdAt.value
      && t.dueDate == r.dueDate && t.completedAt == r.completedAt
      && (r.notes.None? ==> t.notes == "") && (r.notes.Some? ==> t.notes == r.notes.value)
      && (r.priority.None? ==> t.priority == Medium) && (r.priority.Some? ==> PriorityRaw(t.priority) == r.priority.value)
      && (r.category.None? ==> t.category == Personal) && (r.category.Some? ==> CategoryRaw(t.category) == r.category.value)
      && (r.estimatedDuration.None? ==> t.estimatedDuration == 30)
      && (r.estimatedDuration.Some? ==> t.estimatedDuration == r.estimatedDuration.value)
  {
    var t := DecodeTask(r, id).value;
    if r.priority.Some? { ParsePriorityInvertsRaw(r.priority.value, t.priority); }
    if r.category.Some? { ParseCategoryInvertsRaw(r.category.value, t.category); }
  }

  /**
   * Decoding does not tie the completion time to the flag: a stored task
   * marked completed but without a completion time loads as it is.
   */
  lemma DecodeKeepsInconsistency()
    ensures var t := DecodeTask(TaskRecord(Some("t"), None, Some(true), None, None, None, Some(0), None, None), 0);
      t.Ok? && t.value.isCompleted && t.value.completedAt.None? && !CompletionConsistent(t.value)
  {
  }

  /** Encoding then decoding gives a task back with the new identity in place of the old. */
  lemma TaskRoundTrip(t: Task, id: TaskId)
    ensures DecodeTask(EncodeTask(t), id) == Ok(t.(id := id))
  {
    ParsePriorityInvertsRaw(PriorityRaw(t.priority), t.priority);
    ParseCategoryInvertsRaw(CategoryRaw(t.category), t.category);
  }

  /** The identity is not encoded: two tasks that differ only in it encode alike. */
  lemma EncodeIgnoresId(t: Task, id: TaskId)
    ensures EncodeTask(t.(id := id)) == EncodeTask(t)
  {
  }

  // ---------------------------------------------------------------------------
  // Lists of tasks

  /** `ts` with fresh identities first, first + 1, ... in order. */
  function Renumbered(ts: seq<Task>, first: TaskId): (r: seq<Task>)
    ensures |r| == |ts|
    ensures forall i :: 0 <= i < |ts| ==> r[i] == ts[i].(id := first + i)
    decreases |ts|
  {
    if ts == [] then [] else [ts[0].(id := first)] + Renumbered(ts[1..], first + 1)
  }

  function EncodeTasks(ts: seq<Task>): (r: seq<TaskRecord>)
    ensures |r| == |ts| && forall i :: 0 <= i < |ts| ==> r[i] == EncodeTask(ts[i])
  {
    if ts == [] then [] else [EncodeTask(ts[0])] + EncodeTasks(ts[1..])
  }

  /**
   * Decoding `[Task]`: every element must decode, or the whole list fails.
   * The decoded tasks receive identities first, first + 1, ...
   */
  function DecodeTasks(rs: seq<TaskRecord>, first: TaskId): (r: Option<seq<Task>>)
    ensures r.Some? ==> (|r.value| == |rs|
      && forall i :: 0 <= i < |rs| ==> DecodeTask(rs[i], first + i) == Ok(r.value[i]))
    ensures r.None? ==> exists i :: 0 <= i < |rs| && DecodeTask(rs[i], first + i).Err?
    decreases |rs|
  {
    if rs == [] then Some([])
    else match DecodeTask(rs[0], first)
      case Err(_) => None
      case Ok(t) =>
        match DecodeTasks(rs[1..], first + 1)
        case None =>
          ghost var i :| 0 <= i < |rs[1..]| && DecodeTask(rs[1..][i], first + 1 + i).Err?;
          assert DecodeTask(rs[i + 1], first + (i + 1)).Err?;
          None
        case Some(rest) => Some([t] + rest)
  }

  lemma {:induction false} TasksRoundTrip(ts: seq<Task>, first: TaskId)
    ensures DecodeTasks(EncodeTasks(ts), first) == Some(Renumbered(ts, first))
    decreases |ts|
  {
    if ts != [] {
      TaskRoundTrip(ts[0], first);
      assert EncodeTasks(ts)[1..] == EncodeTasks(ts[1..]);
      TasksRoundTrip(ts[1..], first + 1);
    }
  }

  // ---------------------------------------------------------------------------
  // Sessions and badges

  datatype SessionRecord = SessionRecord(duration: Option<nat>, completedAt: Option<Timestamp>)

  function EncodeSession(s: FocusSession): SessionRecord {
    SessionRecord(Some(s.duration), Some(s.completedAt))
  }

  /** `FocusSession.init(from:)`: both keys are required. */
  function DecodeSession(r: SessionRecord): (res: Result<FocusSession, DecodeError>)
    ensures res.Ok? <==> r.duration.Some? && r.completedAt.Some?
  {
    if r.duration.None? then Err(KeyNotFound("duration"))
    else if r.completedAt.None? then Err(KeyNotFound("completedAt"))
    else Ok(FocusSession(r.duration.value, r.completedAt.value))
  }

  function EncodeSessions(ss: seq<FocusSession>): (r: seq<SessionRecord>)
    ensures |r| == |ss| && forall i :: 0 <= i < |ss| ==> r[i] == EncodeSession(ss[i])
  {
    if ss == [] then [] else [EncodeSession(ss[0])] + EncodeSessions(ss[1..])
  }

  function DecodeSessions(rs: seq<SessionRecord>): (r: Option<seq<FocusSession>>)
    ensures r.Some? ==> |r.value| == |rs| && forall i :: 0 <= i < |rs| ==> DecodeSession(rs[i]) == Ok(r.value[i])
    ensures r.None? ==> exists i :: 0 <= i < |rs| && DecodeSession(rs[i]).Err?
  {
    if rs == [] then Some([])
    else match DecodeSession(rs[0])
      case Err(_) => None
      case Ok(s) =>
        match DecodeSessions(rs[1..])
        case None =>
          ghost var i :| 0 <= i < |rs[1..]| && DecodeSession(rs[1..][i]).Err?;
          assert DecodeSession(rs[i + 1]).Err?;
          None
        case Some(rest) => Some([s] + rest)
  }

  lemma {:induction false} SessionsRoundTrip(ss: seq<FocusSession>)
    ensures DecodeSessions(EncodeSessions(ss)) == Some(ss)
    decreases |ss|
  {
    if ss != [] {
      assert EncodeSessions(ss)[1..] == EncodeSessions(ss[1..]);
      assert DecodeSession(EncodeSessions(ss)[0]) == Ok(ss[0]);
      SessionsRoundTrip(ss[1..]);
      assert [ss[0]] + ss[1..] == ss;
    }
  }

  /** `Array(earnedBadges)`: the earned tiers as raw values (here in `allCases` order). */
  function EncodeBadges(earned: set<Badge>): (r: seq<string>)
  {
    EncodeBadgesFrom(AllBadges, earned)
  }

  function EncodeBadgesFrom(tiers: seq<Badge>, earned: set<Badge>): (r: seq<string>)
    ensures forall s :: s in r <==> exists b :: b in tiers && b in earned && BadgeRaw(b) == s
  {
    if tiers == [] then []
    else (if tiers[0] in earned then [BadgeRaw(tiers[0])] else []) + EncodeBadgesFrom(tiers[1..], earned)
  }

  /** Decoding `[Badge]`: every raw value must name a tier. */
  function DecodeBadgeList(raws: seq<string>): (r: Option<seq<Badge>>)
    ensures r.Some? ==> (|r.value| == |raws| && forall i :: 0 <= i < |raws| ==> BadgeRaw(r.value[i]) == raws[i])
    ensures r.None? ==> exists i :: 0 <= i < |raws| && ParseBadge(raws[i]).None?
  {
    if raws == [] then Some([])
    else match ParseBadge(raws[0])
      case None => None
      case Some(b) =>
        ParseBadgeInvertsRaw(raws[0], b);
        match DecodeBadgeList(raws[1..])
        case None =>
          ghost var i :| 0 <= i < |raws[1..]| && ParseBadge(raws[1..][i]).None?;
          assert ParseBadge(raws[i + 1]).None?;
          None
        case Some(rest) => Some([b] + rest)
  }

  /** `Set(decoded)`: the tiers the stored list names. */
  function DecodeBadges(raws: seq<string>): (r: Option<set<Badge>>)
    ensures r.Some? ==> forall b :: b in r.value <==> BadgeRaw(b) in raws
  {
    match DecodeBadgeList(raws)
    case None => None
    case Some(list) =>
      var r := set b | b in list;
      assert forall b :: b in r <==> BadgeRaw(b) in raws by {
        forall b ensures b in r <==> BadgeRaw(b) in raws {
          if BadgeRaw(b) in raws {
            var i :| 0 <= i < |raws| && raws[i] == BadgeRaw(b);
            BadgeRawInjective(list[i], b);
          }
        }
      }
      Some(r)
  }

  lemma BadgesRoundTrip(earned: set<Badge>)
    ensures DecodeBadges(EncodeBadges(earned)) == Some(earned)
  {
    var raws := EncodeBadges(earned);
    forall i | 0 <= i < |raws| ensures ParseBadge(raws[i]).Some? {
      assert raws[i] in raws;
      var b :| b in AllBadges && b in earned && BadgeRaw(b) == raws[i];
      ParseBadgeInvertsRaw(raws[i], b);
    }
    assert DecodeBadgeList(raws).Some?;
    var r := DecodeBadges(raws).value;
    forall b ensures b in r <==> b in earned {
      AllBadgesComplete(b);
      if b in earned {
        assert BadgeRaw(b) in raws;
      }
      if BadgeRaw(b) in raws {
        var c :| c in AllBadges && c in earned && BadgeRaw(c) == BadgeRaw(b);
        BadgeRawInjective(b, c);
      }
    }
    assert r == earned;
  }

  // ---------------------------------------------------------------------------
  // The stored snapshot

  /**
   * What the four keys of the store hold: `None` when a key is absent or its
   * blob is not a list at all; the `hasCompletedOnboarding` key holds a flag.
   */
  datatype Snapshot = Snapshot(
    onboarding: Option<bool>,
    tasks: Option<seq<TaskRecord>>,
    sessions: Option<seq<SessionRecord>>,
    badges: Option<seq<string>>)

  /** The state `loadData` recovers, before the badges are brought up to date. */
  datatype Loaded = Loaded(onboarding: bool, tasks: seq<Task>, sessions: seq<FocusSession>, badges: set<Badge>)

  /** `saveData`: each field written under its own key. */
  function Save(onboarding: bool, tasks: seq<Task>, sessions: seq<FocusSession>, badges: set<Badge>): Snapshot {
    Snapshot(Some(onboarding), Some(EncodeTasks(tasks)), Some(EncodeSessions(sessions)), Some(EncodeBadges(badges)))
  }

  function OrElse<T>(o: Option<T>, default: T): T {
    if o.Some? then o.value else default
  }

  function DecodeTasksField(stored: Option<seq<TaskRecord>>): seq<Task> {
    if stored.None? then [] else OrElse(DecodeTasks(stored.value, 0), [])
  }

  function DecodeSessionsField(stored: Option<seq<SessionRecord>>): seq<FocusSession> {
    if stored.None? then [] else OrElse(DecodeSessions(stored.value), [])
  }

  function DecodeBadgesField(stored: Option<seq<string>>): set<Badge> {
    if stored.None? then {} else OrElse(DecodeBadges(stored.value), {})
  }

  /**
   * `loadData`: each key decoded on its own; a key that is missing or does not
   * decode leaves its field empty (false for the flag).  Loaded tasks receive
   * fresh identities 0, 1, ...
   */
  function Load(stored: Snapshot): Loaded {
    Loaded(OrElse(stored.onboarding, false), DecodeTasksField(stored.tasks),
           DecodeSessionsField(stored.sessions), DecodeBadgesField(stored.badges))
  }

  /** Loaded tasks carry the identities 0, 1, ... in list order. */
  lemma LoadedIds(stored: Snapshot)
    ensures forall i :: 0 <= i < |Load(stored).tasks| ==> Load(stored).tasks[i].id == i
  {
    if stored.tasks.Some? && DecodeTasks(stored.tasks.value, 0).Some? {
      var rs, ts := stored.tasks.value, DecodeTasks(stored.tasks.value, 0).value;
      forall i | 0 <= i < |ts| ensures ts[i].id == i {
        assert DecodeTask(rs[i], 0 + i) == Ok(ts[i]);
      }
    }
  }

  /** Saving then loading gives every field back; only task identities are new. */
  lemma SaveLoadRoundTrip(onboarding: bool, tasks: seq<Task>, sessions: seq<FocusSession>, badges: set<Badge>)
    ensures Load(Save(onboarding, tasks, sessions, badges)) == Loaded(onboarding, Renumbered(tasks, 0), sessions, badges)
  {
    TasksRoundTrip(tasks, 0);
    SessionsRoundTrip(sessions);
    BadgesRoundTrip(badges);
  }

  /** A task list that does not decode falls back to empty without disturbing the other fields. */
  lemma CorruptTasksIsolated(stored: Snapshot, rs: seq<TaskRecord>, i: nat)
    requires i < |rs| && DecodeTask(rs[i], i).Err?
    ensures Load(stored.(tasks := Some(rs))) == Load(stored).(tasks := [])
  {
  }

  /** Likewise for the session list and the badge list. */
  lemma CorruptSessionsIsolated(stored: Snapshot, rs: seq<SessionRecord>, i: nat)
    requires i < |rs| && DecodeSession(rs[i]).Err?
    ensures Load(stored.(sessions := Some(rs))) == Load(stored).(sessions := [])
  {
  }

  lemma CorruptBadgesIsolated(stored: Snapshot, raws: seq<string>, i: nat)
    requires i < |raws| && ParseBadge(raws[i]).None?
    ensures Load(stored.(badges := Some(raws))) == Load(stored).(badges := {})
  {
    if DecodeBadgeList(raws).Some? {
      var b := DecodeBadgeList(raws).value[i];
      ParseBadgeInvertsRaw(raws[i], b);
    }
  }
}
