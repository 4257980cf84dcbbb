/**
 * The dashboard's task query: one of five filters, then a sort by one of
 * four comparators.  Pure functions of a task list, the selectors, the
 * current time and the current calendar day; the store's list is not touched.
 */
module Query {
  import opened Wrappers
  import opened Model

  datatype TaskFilter = All | Pending | Completed | Overdue | DueToday

  datatype TaskSort = ByPriority | ByDueDate | ByCategory | ByCreated

  /** The current calendar day, as the half-open interval [start, end) of timestamps. */
  datatype Day = Day(start: Timestamp, end: Timestamp)

  /** `Calendar.current.isDateInToday(dueDate)` for a task that has a due date. */
  predicate IsDueToday(t: Task, today: Day) {
    t.dueDate.Some? && today.start <= t.dueDate.value < today.end
  }

  /** The filter closure of `filteredTasks`. */
  predicate Passes(f: TaskFilter, t: Task, now: Timestamp, today: Day) {
    match f
    case All => true
    case Pending => !t.isCompleted
    case Completed => t.isCompleted
    case Overdue => IsOverdue(t, now)
    case DueToday => IsDueToday(t, today)
  }

  /** `tasks.filter { ... }`: the passing tasks, in their order. */
  function FilterTasks(ts: seq<Task>, f: TaskFilter, now: Timestamp, today: Day): (r: seq<Task>)
    ensures |r| <= |ts|
    ensures forall i :: 0 <= i < |r| ==> Passes(f, r[i], now, today)
    decreases |ts|
  {
    if ts == [] then []
    else
      var rest := FilterTasks(ts[1..], f, now, today);
      if Passes(f, ts[0], now, today) then [ts[0]] + rest else rest
  }

  /** The filter keeps every passing task as often as it occurs, and nothing else. */
  lemma {:induction false} FilterTasksContents(ts: seq<Task>, f: TaskFilter, now: Timestamp, today: Day)
    ensures forall t :: multiset(FilterTasks(ts, f, now, today))[t]
                        == if Passes(f, t, now, today) then multiset(ts)[t] else 0
    decreases |ts|
  {
    if ts != [] {
      FilterTasksContents(ts[1..], f, now, today);
      assert ts == [ts[0]] + ts[1..];
      assert multiset(ts) == multiset{ts[0]} + multiset(ts[1..]);
    }
  }

  // ---------------------------------------------------------------------------
  // Comparators

  /** Swift's `<` on the raw-value strings: lexicographic by character. */
  predicate StringLess(a: string, b: string)
    decreases |a|
  {
    if a == [] then b != []
    else if b == [] then false
    else if a[0] != b[0] then a[0] < b[0]
    else StringLess(a[1..], b[1..])
  }

  /** The sort closure of `filteredTasks`: does `a` go before `b`? */
  predicate Before(order: TaskSort, a: Task, b: Task) {
    match order
    case ByPriority => PriorityIndex(a.priority) > PriorityIndex(b.priority)
    case ByDueDate =>
      if a.dueDate.Some? && b.dueDate.Some? then a.dueDate.value < b.dueDate.value
      else a.dueDate.Some?
    case ByCategory => StringLess(CategoryRaw(a.category), CategoryRaw(b.category))
    case ByCreated => a.createdAt > b.createdAt
  }

  /** Position of a category's raw value in alphabetical order. */
  function CategoryRank(c: Category): nat {
    match c
    case Finance => 0
    case Health => 1
    case Home => 2
    case Learning => 3
    case Personal => 4
    case Shopping => 5
    case Travel => 6
    case Work => 7
  }

  /** Comparing raw values is comparing alphabetical ranks. */
  lemma CategoryRawOrder(c1: Category, c2: Category)
    ensures StringLess(CategoryRaw(c1), CategoryRaw(c2)) <==> CategoryRank(c1) < CategoryRank(c2)
  {
    var a, b := CategoryRaw(c1), CategoryRaw(c2);
    if c1 != c2 && ((c1 == Health && c2 == Home) || (c1 == Home && c2 == Health)) {
      assert a[0] == b[0] && a[1] != b[1];
      assert StringLess(a, b) == StringLess(a[1..], b[1..]);
    }
    if c1 == c2 {
      StringLessIrreflexive(a);
    }
  }

  lemma {:induction false} StringLessIrreflexive(a: string)
    ensures !StringLess(a, a)
    decreases |a|
  {
    if a != [] { StringLessIrreflexive(a[1..]); }
  }

  /** A key whose lexicographic order each comparator follows. */
  function SortKey(order: TaskSort, t: Task): (int, int) {
    match order
    case ByPriority => (-(PriorityIndex(t.priority) as int), 0)
    case ByDueDate => if t.dueDate.Some? then (0, t.dueDate.value) else (1, 0)
    case ByCategory => (CategoryRank(t.category), 0)
    case ByCreated => (-t.createdAt, 0)
  }

  predicate KeyLess(k1: (int, int), k2: (int, int)) {
    k1.0 < k2.0 || (k1.0 == k2.0 && k1.1 < k2.1)
  }

  /**
   * Every comparator is "key less than" for its key, so each is a strict weak
   * order, as `sorted(by:)` demands.
   */
  lemma BeforeIsKeyLess(order: TaskSort, a: Task, b: Task)
    ensures Before(order, a, b) <==> KeyLess(SortKey(order, a), SortKey(order, b))
  {
    if order == ByCategory { CategoryRawOrder(a.category, b.category); }
  }

  /** No later task goes strictly before an earlier one. */
  ghost predicate SortedBy(order: TaskSort, s: seq<Task>) {
    forall i, j :: 0 <= i < j < |s| ==> !Before(order, s[j], s[i])
  }

  ghost predicate KeySorted(order: TaskSort, s: seq<Task>) {
    forall i, j :: 0 <= i < j < |s| ==> !KeyLess(SortKey(order, s[j]), SortKey(order, s[i]))
  }

  lemma SortedByKeys(order: TaskSort, s: seq<Task>)
    ensures SortedBy(order, s) <==> KeySorted(order, s)
  {
    forall a, b { BeforeIsKeyLess(order, a, b); }
  }

  // ---------------------------------------------------------------------------
  // Sorting

  /** Puts `x` in front of the first element it does not come after. */
  function Insert(order: TaskSort, x: Task, s: seq<Task>): (r: seq<Task>)
    ensures multiset(r) == multiset(s) + multiset{x}
    decreases |s|
  {
    if s == [] then [x]
    else if Before(order, s[0], x) then
      assert s == [s[0]] + s[1..];
      [s[0]] + Insert(order, x, s[1..])
    else [x] + s
  }

  /** `sorted(by:)`, taken to be a stable insertion sort. */
  function SortTasks(order: TaskSort, s: seq<Task>): (r: seq<Task>)
    ensures multiset(r) == multiset(s)
    decreases |s|
  {
    if s == [] then []
    else
      assert s == [s[0]] + s[1..];
      Insert(order, s[0], SortTasks(order, s[1..]))
  }

  /** No key in `s` is below `k`. */
  ghost predicate KeysAtLeast(order: TaskSort, k: (int, int), s: seq<Task>) {
    forall j :: 0 <= j < |s| ==> !KeyLess(SortKey(order, s[j]), k)
  }

  /** A sorted list's keys are at least the key of its head, and of anything below the head. */
  lemma SortedAbove(order: TaskSort, s: seq<Task>, k: (int, int))
    requires KeySorted(order, s) && s != [] && !KeyLess(SortKey(order, s[0]), k)
    ensures KeysAtLeast(order, k, s)
  {
    forall j | 0 < j < |s| ensures !KeyLess(SortKey(order, s[j]), k) {
      assert !KeyLess(SortKey(order, s[j]), SortKey(order, s[0]));
    }
  }

  /** A head no greater than every key of a sorted tail gives a sorted list. */
  lemma ConsSorted(order: TaskSort, h: Task, s: seq<Task>)
    requires KeySorted(order, s) && KeysAtLeast(order, SortKey(order, h), s)
    ensures KeySorted(order, [h] + s)
  {
    var r := [h] + s;
    forall i, j | 0 <= i < j < |r| ensures !KeyLess(SortKey(order, r[j]), SortKey(order, r[i])) {
      assert r[j] == s[j - 1];
      if i > 0 { assert r[i] == s[i - 1]; }
    }
  }

  /** Inserting a task whose key is at least `k` keeps every key at least `k`. */
  lemma {:induction false} InsertKeepsBound(order: TaskSort, x: Task, s: seq<Task>, k: (int, int))
    requires KeysAtLeast(order, k, s) && !KeyLess(SortKey(order, x), k)
    ensures KeysAtLeast(order, k, Insert(order, x, s))
    decreases |s|
  {
    if s != [] && Before(order, s[0], x) {
      InsertKeepsBound(order, x, s[1..], k);
      var r := [s[0]] + Insert(order, x, s[1..]);
      forall j | 0 < j < |r| ensures !KeyLess(SortKey(order, r[j]), k) {
        assert r[j] == Insert(order, x, s[1..])[j - 1];
      }
    }
  }

  lemma {:induction false} InsertKeySorted(order: TaskSort, x: Task, s: seq<Task>)
    requires KeySorted(order, s)
    ensures KeySorted(order, Insert(order, x, s))
    decreases |s|
  {
    if s != [] {
      BeforeIsKeyLess(order, s[0], x);
      if Before(order, s[0], x) {
        InsertKeySorted(order, x, s[1..]);
        SortedAbove(order, s, SortKey(order, s[0]));
        assert KeysAtLeast(order, SortKey(order, s[0]), s[1..]) by {
          forall j | 0 <= j < |s[1..]| ensures !KeyLess(SortKey(order, s[1..][j]), SortKey(order, s[0])) {
            assert s[1..][j] == s[j + 1];
          }
        }
        InsertKeepsBound(order, x, s[1..], SortKey(order, s[0]));
        ConsSorted(order, s[0], Insert(order, x, s[1..]));
      } else {
        SortedAbove(order, s, SortKey(order, x));
        ConsSorted(order, x, s);
      }
    }
  }

  lemma {:induction false} SortTasksKeySorted(order: TaskSort, s: seq<Task>)
    ensures KeySorted(order, SortTasks(order, s))
    decreases |s|
  {
    if s != [] {
      SortTasksKeySorted(order, s[1..]);
      InsertKeySorted(order, s[0], SortTasks(order, s[1..]));
    }
  }

  /** Two tasks share a key exactly when the comparator orders neither before the other. */
  lemma SameKeyIffTied(order: TaskSort, a: Task, b: Task)
    ensures SortKey(order, a) == SortKey(order, b) <==> !Before(order, a, b) && !Before(order, b, a)
  {
    BeforeIsKeyLess(order, a, b);
    BeforeIsKeyLess(order, b, a);
  }

  /** The tasks of `s` whose sort key is `k`, in their order in `s`. */
  function WithKey(order: TaskSort, k: (int, int), s: seq<Task>): seq<Task>
    decreases |s|
  {
    if s == [] then []
    else (if SortKey(order, s[0]) == k then [s[0]] else []) + WithKey(order, k, s[1..])
  }

  lemma WithKeyCons(order: TaskSort, k: (int, int), h: Task, s: seq<Task>)
    ensures WithKey(order, k, [h] + s) == (if SortKey(order, h) == k then [h] else []) + WithKey(order, k, s)
  {
    assert ([h] + s)[0] == h && ([h] + s)[1..] == s;
  }

  /** One step of `InsertStable`: a task passed over never shares `x`'s key. */
  lemma PassOver(order: TaskSort, k: (int, int), h: Task, x: Task, rest: seq<Task>, tail: seq<Task>)
    requires SortKey(order, h) != SortKey(order, x)
    requires WithKey(order, k, rest) == (if SortKey(order, x) == k then [x] else []) + tail
    ensures WithKey(order, k, [h] + rest)
      == (if SortKey(order, x) == k then [x] else []) + ((if SortKey(order, h) == k then [h] else []) + tail)
  {
    WithKeyCons(order, k, h, rest);
  }

  /** Insertion puts `x` ahead of every task with the same key. */
  lemma {:induction false} InsertStable(order: TaskSort, x: Task, s: seq<Task>, k: (int, int))
    ensures WithKey(order, k, Insert(order, x, s))
      == (if SortKey(order, x) == k then [x] else []) + WithKey(order, k, s)
    decreases |s|
  {
    if s == [] {
      WithKeyCons(order, k, x, []);
    } else if Before(order, s[0], x) {
      BeforeIsKeyLess(order, s[0], x);
      InsertStable(order, x, s[1..], k);
      PassOver(order, k, s[0], x, Insert(order, x, s[1..]), WithKey(order, k, s[1..]));
      WithKeyCons(order, k, s[0], s[1..]);
      assert [s[0]] + s[1..] == s;
    } else {
      WithKeyCons(order, k, x, s);
    }
  }

  /**
   * The sort is stable: tasks with the same key, which neither comparator
   * direction orders, keep their input order.
   */
  lemma {:induction false} SortTasksStable(order: TaskSort, s: seq<Task>, k: (int, int))
    ensures WithKey(order, k, SortTasks(order, s)) == WithKey(order, k, s)
    decreases |s|
  {
    if s != [] {
      SortTasksStable(order, s[1..], k);
      InsertStable(order, s[0], SortTasks(order, s[1..]), k);
    }
  }

  lemma FilterCons(h: Task, s: seq<Task>, f: TaskFilter, now: Timestamp, today: Day)
    ensures FilterTasks([h] + s, f, now, today)
      == (if Passes(f, h, now, today) then [h] else []) + FilterTasks(s, f, now, today)
  {
    assert ([h] + s)[0] == h && ([h] + s)[1..] == s;
  }

  /** Filtering and picking one key commute, so the filter keeps tasks of equal key in order. */
  lemma {:induction false} FilterWithKey(order: TaskSort, k: (int, int), ts: seq<Task>, f: TaskFilter,
                                         now: Timestamp, today: Day)
    ensures WithKey(order, k, FilterTasks(ts, f, now, today)) == FilterTasks(WithKey(order, k, ts), f, now, today)
    decreases |ts|
  {
    if ts != [] {
      var h, tail := ts[0], ts[1..];
      FilterWithKey(order, k, tail, f, now, today);
      var rest := FilterTasks(tail, f, now, today);
      var w := WithKey(order, k, tail);
      assert FilterTasks(ts, f, now, today) == (if Passes(f, h, now, today) then [h] else []) + rest;
      assert WithKey(order, k, ts) == (if SortKey(order, h) == k then [h] else []) + w;
      WithKeyCons(order, k, h, rest);
      FilterCons(h, w, f, now, today);
      if !Passes(f, h, now, today) {
        assert [] + rest == rest;
      }
      if SortKey(order, h) != k {
        assert [] + w == w;
      }
    }
  }

  /** The sort returns a permutation of its input in comparator order. */
  lemma SortTasksCorrect(order: TaskSort, s: seq<Task>)
    ensures SortedBy(order, SortTasks(order, s))
    ensures multiset(SortTasks(order, s)) == multiset(s)
  {
    SortTasksKeySorted(order, s);
    SortedByKeys(order, SortTasks(order, s));
  }

  // ---------------------------------------------------------------------------
  // The query

  /** `DashboardView.filteredTasks`. */
  function FilteredTasks(ts: seq<Task>, f: TaskFilter, order: TaskSort, now: Timestamp, today: Day): seq<Task> {
    SortTasks(order, FilterTasks(ts, f, now, today))
  }

  /**
   * The query returns exactly those tasks that pass the filter, each as often
   * as it occurs in the list, ordered by the chosen comparator.
   */
  lemma FilteredTasksCorrect(ts: seq<Task>, f: TaskFilter, order: TaskSort, now: Timestamp, today: Day)
    ensures var r := FilteredTasks(ts, f, order, now, today);
      && SortedBy(order, r)
      && (forall t :: multiset(r)[t] == if Passes(f, t, now, today) then multiset(ts)[t] else 0)
      && (forall t :: t in r <==> t in ts && Passes(f, t, now, today))
      && (forall k :: WithKey(order, k, r) == FilterTasks(WithKey(order, k, ts), f, now, today))
  {
    var filtered := FilterTasks(ts, f, now, today);
    FilterTasksContents(ts, f, now, today);
    SortTasksCorrect(order, filtered);
    forall k ensures WithKey(order, k, SortTasks(order, filtered)) == FilterTasks(WithKey(order, k, ts), f, now, today) {
      SortTasksStable(order, filtered, k);
      FilterWithKey(order, k, ts, f, now, today);
    }
    var r := FilteredTasks(ts, f, order, now, today);
    forall t ensures t in r <==> t in ts && Passes(f, t, now, today) {
      assert t in r <==> multiset(r)[t] > 0;
      assert t in ts <==> multiset(ts)[t] > 0;
    }
  }

  /** The overdue filter keeps only open tasks whose due date has passed. */
  lemma OverdueOnlyOverdue(ts: seq<Task>, order: TaskSort, now: Timestamp, today: Day)
    ensures var r := FilteredTasks(ts, Overdue, order, now, today);
      forall i :: 0 <= i < |r| ==>
        r[i].dueDate.Some? && !r[i].isCompleted && r[i].dueDate.value < now && r[i] in ts
  {
    FilteredTasksCorrect(ts, Overdue, order, now, today);
  }

  /** By due date: every dated task before every undated one, dated ones ascending. */
  lemma DueDateOrder(ts: seq<Task>, f: TaskFilter, now: Timestamp, today: Day)
    ensures var r := FilteredTasks(ts, f, ByDueDate, now, today);
      forall i, j :: 0 <= i < j < |r| ==>
        && (r[i].dueDate.None? ==> r[j].dueDate.None?)
        && (r[i].dueDate.Some? && r[j].dueDate.Some? ==> r[i].dueDate.value <= r[j].dueDate.value)
  {
    FilteredTasksCorrect(ts, f, ByDueDate, now, today);
  }

  /** By priority: urgent first, ranks never increase along the result. */
  lemma PriorityOrder(ts: seq<Task>, f: TaskFilter, now: Timestamp, today: Day)
    ensures var r := FilteredTasks(ts, f, ByPriority, now, today);
      forall i, j :: 0 <= i < j < |r| ==> PriorityIndex(r[i].priority) >= PriorityIndex(r[j].priority)
  {
    FilteredTasksCorrect(ts, f, ByPriority, now, today);
  }

  /** By category: raw values in alphabetical order. */
  lemma CategoryOrder(ts: seq<Task>, f: TaskFilter, now: Timestamp, today: Day)
    ensures var r := FilteredTasks(ts, f, ByCategory, now, today);
      forall i, j :: 0 <= i < j < |r| ==> CategoryRank(r[i].category) <= CategoryRank(r[j].category)
  {
    FilteredTasksCorrect(ts, f, ByCategory, now, today);
    var r := FilteredTasks(ts, f, ByCategory, now, today);
    forall i, j | 0 <= i < j < |r| ensures CategoryRank(r[i].category) <= CategoryRank(r[j].category) {
      CategoryRawOrder(r[j].category, r[i].category);
    }
  }

  /** By creation: the most recently created first. */
  lemma CreatedOrder(ts: seq<Task>, f: TaskFilter, now: Timestamp, today: Day)
    ensures var r := FilteredTasks(ts, f, ByCreated, now, today);
      forall i, j :: 0 <= i < j < |r| ==> r[i].createdAt >= r[j].createdAt
  {
    FilteredTasksCorrect(ts, f, ByCreated, now, today);
  }

  /** A "Home" task sorts before a "Work" task. */
  lemma HomeBeforeWork(work: Task, home: Task)
    requires work.category == Work && home.category == Home
    ensures SortTasks(ByCategory, [work, home]) == [home, work]
  {
    CategoryRawOrder(Work, Home);
    CategoryRawOrder(Home, Work);
    assert [work, home][1..] == [home];
  }
}
