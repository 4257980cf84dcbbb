/**
 * Task-list operations the store applies to its ordered list, and the
 * aggregates it derives from it: first lookup by identity, toggling,
 * removal by identity, and the completed / total counts and their ratio.
 */
module TaskList {
  import opened Wrappers
  import opened Model

  /** No two tasks share an identity (identities are generated fresh). */
  ghost predicate IdsDistinct(ts: seq<Task>) {
    forall i, j :: 0 <= i < j < |ts| ==> ts[i].id != ts[j].id
  }

  ghost predicate AllConsistent(ts: seq<Task>) {
    forall i :: 0 <= i < |ts| ==> CompletionConsistent(ts[i])
  }

  /** `tasks.firstIndex(where: { $0.id == id })`. */
  function FirstIndexOf(ts: seq<Task>, id: TaskId): (r: Option<nat>)
    ensures r.Some? ==> r.value < |ts| && ts[r.value].id == id
    ensures r.Some? ==> forall j :: 0 <= j < r.value ==> ts[j].id != id
    ensures r.None? ==> forall j :: 0 <= j < |ts| ==> ts[j].id != id
    decreases |ts|
  {
    if ts == [] then None
    else if ts[0].id == id then Some(0)
    else match FirstIndexOf(ts[1..], id)
      case None => None
      case Some(i) => Some(i + 1)
  }

  /** The list after `toggleTask(id)`: the first task with that identity toggled. */
  function ToggleById(ts: seq<Task>, id: TaskId, now: Timestamp): seq<Task> {
    match FirstIndexOf(ts, id)
    case None => ts
    case Some(i) => ts[i := ToggleCompletion(ts[i], now)]
  }

  /**
   * Toggling flips the first task with the identity and leaves every other
   * position alone; with no such task the list is unchanged.
   */
  lemma ToggleFlipsFirstMatchOnly(ts: seq<Task>, id: TaskId, now: Timestamp)
    ensures var r := ToggleById(ts, id, now);
      && |r| == |ts|
      && (FirstIndexOf(ts, id).None? ==> r == ts)
      && (forall k :: 0 <= k < |ts| && ts[k].id != id ==> r[k] == ts[k])
      && (FirstIndexOf(ts, id).Some? ==>
            var i := FirstIndexOf(ts, id).value;
            && r[i].isCompleted == !ts[i].isCompleted
            && (r[i].completedAt.Some? <==> r[i].isCompleted)
            && (forall k :: 0 <= k < |ts| && k != i ==> r[k] == ts[k]))
  {
  }

  /** Toggling the same identity twice restores every completion flag. */
  lemma ToggleTwiceRestoresFlags(ts: seq<Task>, id: TaskId, now1: Timestamp, now2: Timestamp)
    ensures var r := ToggleById(ToggleById(ts, id, now1), id, now2);
      && |r| == |ts|
      && (forall k :: 0 <= k < |ts| ==> r[k].isCompleted == ts[k].isCompleted)
      && ((FirstIndexOf(ts, id).Some? && !ts[FirstIndexOf(ts, id).value].isCompleted
           && CompletionConsistent(ts[FirstIndexOf(ts, id).value])) ==> r == ts)
  {
    match FirstIndexOf(ts, id)
    case None =>
    case Some(i) =>
      var once := ToggleById(ts, id, now1);
      assert FirstIndexOf(once, id) == Some(i) by {
        FirstIndexStable(ts, i, ToggleCompletion(ts[i], now1), id);
      }
      ToggleCompletionTwice(ts[i], now1, now2);
  }

  /** Replacing a task by one with the same identity does not move the first match. */
  lemma {:induction false} FirstIndexStable(ts: seq<Task>, i: nat, t: Task, id: TaskId)
    requires FirstIndexOf(ts, id) == Some(i) && t.id == id
    ensures FirstIndexOf(ts[i := t], id) == Some(i)
    decreases |ts|
  {
    if i > 0 {
      assert ts[i := t][1..] == ts[1..][i - 1 := t];
      FirstIndexStable(ts[1..], i - 1, t, id);
    }
  }

  /** Toggling keeps every task's completion time in step with its flag. */
  lemma ToggleKeepsConsistency(ts: seq<Task>, id: TaskId, now: Timestamp)
    requires AllConsistent(ts)
    ensures AllConsistent(ToggleById(ts, id, now))
  {
  }

  /** `tasks.removeAll { $0.id == id }`. */
  function RemoveById(ts: seq<Task>, id: TaskId): (r: seq<Task>)
    ensures |r| <= |ts|
    decreases |ts|
  {
    if ts == [] then []
    else
      var rest := RemoveById(ts[1..], id);
      if ts[0].id == id then rest else [ts[0]] + rest
  }

  /** Every task with the identity is gone, and every other task keeps its multiplicity. */
  lemma {:induction false} RemoveByIdContents(ts: seq<Task>, id: TaskId)
    ensures forall t :: multiset(RemoveById(ts, id))[t] == if t.id == id then 0 else multiset(ts)[t]
    ensures forall t :: t in RemoveById(ts, id) <==> t in ts && t.id != id
    decreases |ts|
  {
    if ts != [] {
      RemoveByIdContents(ts[1..], id);
      assert ts == [ts[0]] + ts[1..];
      assert multiset(ts) == multiset{ts[0]} + multiset(ts[1..]);
    }
  }

  /** Removal keeps the survivors in their order: it distributes over concatenation. */
  lemma {:induction false} RemoveByIdAppend(a: seq<Task>, b: seq<Task>, id: TaskId)
    ensures RemoveById(a + b, id) == RemoveById(a, id) + RemoveById(b, id)
    decreases |a|
  {
    if a == [] {
      assert a + b == b;
    } else {
      var head := if a[0].id == id then [] else [a[0]];
      assert (a + b)[0] == a[0];
      assert (a + b)[1..] == a[1..] + b;
      assert RemoveById(a + b, id) == head + RemoveById(a[1..] + b, id);
      RemoveByIdAppend(a[1..], b, id);
      assert RemoveById(a, id) == head + RemoveById(a[1..], id);
    }
  }

  /** With no task of that identity, removal changes nothing. */
  lemma {:induction false} RemoveAbsentId(ts: seq<Task>, id: TaskId)
    requires forall k :: 0 <= k < |ts| ==> ts[k].id != id
    ensures RemoveById(ts, id) == ts
    decreases |ts|
  {
    if ts != [] {
      RemoveAbsentId(ts[1..], id);
    }
  }

  /** With distinct identities, removing a present one removes exactly that task. */
  lemma RemovePresentId(ts: seq<Task>, i: nat)
    requires i < |ts| && IdsDistinct(ts)
    ensures RemoveById(ts, ts[i].id) == ts[..i] + ts[i + 1..]
  {
    var id, pre, post := ts[i].id, ts[..i], ts[i + 1..];
    OthersLackId(ts, i, pre, post);
    RemoveAbsentId(pre, id);
    RemoveAbsentId(post, id);
    RemoveSplit(pre, ts[i], post);
    SplitAt(ts, i);
  }

  lemma OthersLackId(ts: seq<Task>, i: nat, pre: seq<Task>, post: seq<Task>)
    requires i < |ts| && IdsDistinct(ts) && pre == ts[..i] && post == ts[i + 1..]
    ensures forall k :: 0 <= k < |pre| ==> pre[k].id != ts[i].id
    ensures forall k :: 0 <= k < |post| ==> post[k].id != ts[i].id
  {
    forall k | 0 <= k < |pre| ensures pre[k].id != ts[i].id {
      assert pre[k] == ts[k];
    }
    forall k | 0 <= k < |post| ensures post[k].id != ts[i].id {
      assert post[k] == ts[i + 1 + k];
    }
  }

  lemma SplitAt(ts: seq<Task>, i: nat)
    requires i < |ts|
    ensures ts[..i] + ([ts[i]] + ts[i + 1..]) == ts
  {
    assert [ts[i]] + ts[i + 1..] == ts[i..];
    assert ts[..i] + ts[i..] == ts;
  }

  /** Removal around one task that carries the identity removed. */
  lemma RemoveSplit(pre: seq<Task>, t: Task, post: seq<Task>)
    requires RemoveById(pre, t.id) == pre && RemoveById(post, t.id) == post
    ensures RemoveById(pre + ([t] + post), t.id) == pre + post
  {
    RemoveByIdAppend(pre, [t] + post, t.id);
    RemoveByIdAppend([t], post, t.id);
    assert RemoveById([t], t.id) == [];
  }

  // ---------------------------------------------------------------------------
  // Aggregates

  /** `tasks.filter { $0.isCompleted }.count`. */
  function CompletedCount(ts: seq<Task>): (n: nat)
    ensures n <= |ts|
    ensures n == |ts| <==> forall i :: 0 <= i < |ts| ==> ts[i].isCompleted
    ensures n == 0 <==> forall i :: 0 <= i < |ts| ==> !ts[i].isCompleted
    decreases |ts|
  {
    if ts == [] then 0
    else (if ts[0].isCompleted then 1 else 0) + CompletedCount(ts[1..])
  }

  lemma {:induction false} CompletedCountAppend(ts: seq<Task>, t: Task)
    ensures CompletedCount(ts + [t]) == CompletedCount(ts) + (if t.isCompleted then 1 else 0)
    decreases |ts|
  {
    if ts != [] {
      assert (ts + [t])[1..] == ts[1..] + [t];
      CompletedCountAppend(ts[1..], t);
    }
  }

  lemma {:induction false} CompletedCountUpdate(ts: seq<Task>, i: nat, t: Task)
    requires i < |ts|
    ensures CompletedCount(ts[i := t])
            == CompletedCount(ts) - (if ts[i].isCompleted then 1 else 0) + (if t.isCompleted then 1 else 0)
    decreases |ts|
  {
    if i > 0 {
      assert ts[i := t][1..] == ts[1..][i - 1 := t];
      CompletedCountUpdate(ts[1..], i - 1, t);
    }
  }

  /** A toggle that finds its task moves the completed count by exactly one. */
  lemma ToggleChangesCountByOne(ts: seq<Task>, id: TaskId, now: Timestamp)
    ensures var before, after := CompletedCount(ts), CompletedCount(ToggleById(ts, id, now));
      match FirstIndexOf(ts, id)
      case None => after == before
      case Some(i) => after == if ts[i].isCompleted then before - 1 else before + 1
  {
    match FirstIndexOf(ts, id)
    case None =>
    case Some(i) => CompletedCountUpdate(ts, i, ToggleCompletion(ts[i], now));
  }

  /** A fraction num / den. */
  datatype Ratio = Ratio(num: nat, den: nat)

  /**
   * `completionPercentage`: 0 (as 0 / 1) for an empty list, completed / total
   * otherwise; the division by zero is avoided, not produced.
   */
  function CompletionRatio(ts: seq<Task>): (r: Ratio)
    ensures 0 < r.den && r.num <= r.den
    ensures r.num * |ts| == CompletedCount(ts) * r.den
    ensures r.num == 0 <==> forall i :: 0 <= i < |ts| ==> !ts[i].isCompleted
    ensures r.num == r.den <==> |ts| > 0 && forall i :: 0 <= i < |ts| ==> ts[i].isCompleted
  {
    if |ts| == 0 then Ratio(0, 1) else Ratio(CompletedCount(ts), |ts|)
  }
}
