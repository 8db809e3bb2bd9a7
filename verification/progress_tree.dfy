/**
 * The tree of tasks behind the live progress display: keyed tasks with a
 * parent link, weighted roll-up of child ratios into every ancestor, a
 * monotone completion guarantee and subtree removal that preserves the
 * removed task's share of work. Locking, timers and rendering are left out.
 *
 * Task keys are random hex strings in the source; here the key is a
 * parameter of `StartTask` that must be fresh. The creation time stamp is
 * modelled by a creation counter `nextSeq`: a parent exists before its
 * children, so every walk up or down the tree runs along strictly ordered
 * sequence numbers.
 */
module ProgressTree {
  import opened Wrappers
  import PyStr

  type Key = string

  datatype Task = Task(
    name: string,
    parent: Option<Key>,
    weight: real,
    total: Option<int>,
    completed: int,
    active: bool,
    born: nat,
    removed: bool,
    expectedWeight: real,
    maxCompleted: int)

  datatype Tracker = Tracker(
    tasks: map<Key, Task>,
    children: map<Option<Key>, seq<Key>>,
    contributions: map<Key, real>,
    defaultTotal: int,
    nextSeq: nat)

  function MaxI(a: int, b: int): int { if a >= b then a else b }
  function MinI(a: int, b: int): int { if a <= b then a else b }

  /** Python's truthiness of an optional key: `None` and `""` are false. */
  predicate Truthy(k: Option<Key>) { k.Some? && k.value != "" }

  /** A tracker with no tasks and an empty top-level list. */
  function NewTracker(defaultTotal: int): (t: Tracker)
    ensures TreeInv(t) && Listed(t) && t.tasks == map[] && t.children == map[None := []]
  {
    Tracker(map[], map[None := []], map[], defaultTotal, 0)
  }

  /**
   * The shape every operation keeps: sequence numbers are below the
   * counter, a parent that is still a task is older than its child, and a
   * task listed under a parent names that parent.
   */
  ghost predicate TreeInv(t: Tracker)
  {
    (forall k :: k in t.tasks ==> t.tasks[k].born < t.nextSeq)
    && (forall k :: k in t.tasks && t.tasks[k].parent.Some? && t.tasks[k].parent.value in t.tasks ==>
          t.tasks[t.tasks[k].parent.value].born < t.tasks[k].born)
    && (forall p, c :: p in t.children && c in t.children[p] && c in t.tasks ==> t.tasks[c].parent == p)
  }

  /**
   * The converse link, which `start_task` sets up and every operation
   * keeps: each task is listed under the parent it names.
   */
  ghost predicate Listed(t: Tracker)
  {
    forall k :: k in t.tasks ==> t.tasks[k].parent in t.children && k in t.children[t.tasks[k].parent]
  }

  /** A random key is new everywhere: no task, no child list and no parent link uses it. */
  ghost predicate Fresh(t: Tracker, key: Key)
  {
    key !in t.tasks && Some(key) !in t.children && key !in t.contributions
    && (forall p :: p in t.children ==> key !in t.children[p])
    && (forall k :: k in t.tasks ==> t.tasks[k].parent != Some(key))
  }

  /** `ratio`: `completed / max(1, total)` clamped into [0, 1], and 0 while the total is unknown. */
  function Ratio(task: Task): (r: real)
    ensures 0.0 <= r <= 1.0
    ensures task.total.None? ==> r == 0.0
    ensures task.total.Some? && task.total.value >= 1 && 0 <= task.completed <= task.total.value ==>
      r * task.total.value as real == task.completed as real
  {
    match task.total
    case None => 0.0
    case Some(n) => PyStr.MaxR(0.0, PyStr.MinR(1.0, task.completed as real / MaxI(1, n) as real))
  }

  /** Python's `round` on a float: to the nearest integer, ties to the even one. */
  function RoundHalfEven(x: real): (r: int)
    ensures -0.5 <= r as real - x <= 0.5
    ensures r as real - x == 0.5 || x - r as real == 0.5 ==> r % 2 == 0
  {
    var f := x.Floor;
    var d := x - f as real;
    if d < 0.5 then f
    else if d > 0.5 then f + 1
    else if f % 2 == 0 then f
    else f + 1
  }

  lemma RoundOfInteger(n: int)
    ensures RoundHalfEven(n as real) == n
  {
  }

  /** Sum of the non-negative weights of the listed tasks, skipping keys that are not tasks (or `except`). */
  function WeightSum(tasks: map<Key, Task>, ks: seq<Key>, except: Option<Key>): (r: real)
    ensures r >= 0.0
  {
    if |ks| == 0 then 0.0
    else
      var w := if ks[0] in tasks && Some(ks[0]) != except then PyStr.MaxR(0.0, tasks[ks[0]].weight) else 0.0;
      w + WeightSum(tasks, ks[1..], except)
  }

  /** The weighted work of the listed children: Σ max(0, w) · ratio over those that are tasks. */
  function WorkOf(tasks: map<Key, Task>, ks: seq<Key>): (r: real)
    ensures 0.0 <= r <= WeightSum(tasks, ks, None)
  {
    if |ks| == 0 then 0.0
    else
      var w := if ks[0] in tasks then Share(tasks[ks[0]]) else 0.0;
      w + WorkOf(tasks, ks[1..])
  }

  /** A task's share of its parent's work: `max(0, weight) * ratio`, never more than its weight. */
  function Share(task: Task): (r: real)
    ensures 0.0 <= r <= PyStr.MaxR(0.0, task.weight)
  {
    var w := PyStr.MaxR(0.0, task.weight);
    var q := Ratio(task);
    ProductNonNegative(w, 1.0 - q);
    ProductNonNegative(w, q);
    w * q
  }

  lemma ProductNonNegative(a: real, b: real)
    requires a >= 0.0 && b >= 0.0
    ensures a * b >= 0.0
  {
  }

  function ChildrenOf(t: Tracker, k: Option<Key>): seq<Key>
  {
    if k in t.children then t.children[k] else []
  }

  function Preserved(t: Tracker, k: Key): real
  {
    if k in t.contributions then t.contributions[k] else 0.0
  }

  /** The roll-up ratio of a parent: done work over expected weight, capped at 1; 0 without an expectation. */
  function RollupRatio(t: Tracker, k: Key): (r: real)
    requires k in t.tasks
    ensures r <= 1.0
    ensures t.tasks[k].expectedWeight <= 0.0 ==> r == 0.0
    ensures Preserved(t, k) >= 0.0 && t.tasks[k].expectedWeight > 0.0 ==> r >= 0.0
  {
    var expected := t.tasks[k].expectedWeight;
    if expected > 0.0 then PyStr.MinR(1.0, (WorkOf(t.tasks, ChildrenOf(t, Some(k))) + Preserved(t, k)) / expected)
    else 0.0
  }

  /** Tasks, links and counters are kept; only progress fields may differ. */
  ghost predicate SameShape(t: Tracker, r: Tracker)
  {
    r.tasks.Keys == t.tasks.Keys
    && (forall k :: k in t.tasks ==>
          r.tasks[k].parent == t.tasks[k].parent && r.tasks[k].born == t.tasks[k].born
          && r.tasks[k].weight == t.tasks[k].weight && r.tasks[k].removed == t.tasks[k].removed)
    && r.children == t.children && r.contributions == t.contributions
    && r.defaultTotal == t.defaultTotal && r.nextSeq == t.nextSeq
  }

  /** The total an ancestor gets on roll-up: its own, or the default when unknown. */
  function RollupTotal(t: Tracker, k: Key): int
    requires k in t.tasks
  {
    t.tasks[k].total.GetOr(t.defaultTotal)
  }

  /** `round(ratio * total)` for ancestor `k`, before the monotone guard. */
  function RollupTarget(t: Tracker, k: Key): int
    requires k in t.tasks
  {
    RoundHalfEven(RollupRatio(t, k) * RollupTotal(t, k) as real)
  }

  /** One step of `_recompute_ancestors`: the new completion of ancestor `k`. */
  function RecomputeOne(t: Tracker, k: Key): (r: Tracker)
    requires TreeInv(t) && k in t.tasks
    ensures SameShape(t, r) && TreeInv(r)
    ensures forall j :: j in t.tasks && j != k ==> r.tasks[j] == t.tasks[j]
    ensures r.tasks[k].total == Some(RollupTotal(t, k))
    ensures r.tasks[k].completed == r.tasks[k].maxCompleted
    ensures r.tasks[k].completed >= t.tasks[k].maxCompleted && r.tasks[k].completed >= RollupTarget(t, k)
    ensures r.tasks[k].completed == t.tasks[k].maxCompleted || r.tasks[k].completed == RollupTarget(t, k)
  {
    var pt := t.tasks[k];
    var c := MaxI(pt.maxCompleted, RollupTarget(t, k));
    t.(tasks := t.tasks[k := pt.(total := Some(RollupTotal(t, k)), completed := c, maxCompleted := c)])
  }

  /** The sequence number above which `Recompute` from `cur` leaves every task alone. */
  function Level(t: Tracker, cur: Option<Key>): int
  {
    if cur.Some? && cur.value in t.tasks then t.tasks[cur.value].born else -1
  }

  /**
   * `_recompute_ancestors`: walk from `cur` to the root, giving each ancestor
   * its roll-up; the walk stops at the first key that is not a task.
   */
  function Recompute(t: Tracker, cur: Option<Key>): (r: Tracker)
    requires TreeInv(t)
    ensures SameShape(t, r) && TreeInv(r)
    ensures forall k :: k in t.tasks ==> r.tasks[k].maxCompleted >= t.tasks[k].maxCompleted
    ensures forall k :: k in t.tasks ==>
      r.tasks[k] == t.tasks[k]
      || (r.tasks[k].completed == r.tasks[k].maxCompleted && r.tasks[k].completed >= t.tasks[k].maxCompleted)
    ensures forall k :: k in t.tasks && t.tasks[k].born > Level(t, cur) ==> r.tasks[k] == t.tasks[k]
    decreases Level(t, cur) + 1
  {
    if cur.None? || cur.value !in t.tasks then t
    else
      var t1 := RecomputeOne(t, cur.value);
      Recompute(t1, t.tasks[cur.value].parent)
  }

  /** A task's own fields after `_mark_subtree_complete` visits it. */
  function Completed(task: Task): (r: Task)
    ensures r.total.Some? && r.completed == r.total.value
    ensures r.total == (if task.total.Some? then task.total else Some(1))
    ensures r.(total := task.total, completed := task.completed) == task
    ensures r.born == task.born && r.parent == task.parent
  {
    var total := task.total.GetOr(1);
    task.(total := Some(total), completed := total)
  }

  /** Each task is left as it was or marked complete. */
  ghost predicate MarkedOrSame(t: Tracker, r: Tracker)
  {
    r.tasks.Keys == t.tasks.Keys
    && (forall k :: k in t.tasks ==> r.tasks[k] == t.tasks[k] || r.tasks[k] == Completed(t.tasks[k]))
    && r.children == t.children && r.contributions == t.contributions
    && r.defaultTotal == t.defaultTotal && r.nextSeq == t.nextSeq
  }

  /** A task whose total is known and reached. */
  predicate IsDone(task: Task)
  {
    task.total.Some? && task.completed == task.total.value
  }

  /** `k` and, through the child lists of the tree `t`, every task below it are done in `r`. */
  ghost predicate SubtreeDone(t: Tracker, r: Tracker, k: Key)
    requires TreeInv(t)
    decreases if k in t.tasks then t.nextSeq - t.tasks[k].born else 0, 1
  {
    if k !in t.tasks then true
    else
      ChildrenYounger(t, k);
      k in r.tasks && IsDone(r.tasks[k])
      && ListDone(t, r, t.tasks[k].born, ChildrenOf(t, Some(k)))
  }

  ghost predicate ListDone(t: Tracker, r: Tracker, s: int, ks: seq<Key>)
    requires TreeInv(t) && s < t.nextSeq && Younger(t, s, ks)
    decreases t.nextSeq - s, 0, |ks|
  {
    forall c :: c in ks ==> SubtreeDone(t, r, c)
  }

  /** Every listed key that is a task was created after sequence number `s`. */
  ghost predicate Younger(t: Tracker, s: int, ks: seq<Key>)
  {
    forall c :: c in ks && c in t.tasks ==> t.tasks[c].born > s
  }

  /** The children of a task are younger than it. */
  lemma ChildrenYounger(t: Tracker, k: Key)
    requires TreeInv(t) && k in t.tasks
    ensures Younger(t, t.tasks[k].born, ChildrenOf(t, Some(k)))
  {
  }

  /** `_mark_subtree_complete` from `k`. The source walks with a stack; the marks are per task, so the order does not matter. */
  function MarkFrom(t: Tracker, k: Key): (r: Tracker)
    requires TreeInv(t)
    ensures MarkedOrSame(t, r) && TreeInv(r)
    decreases if k in t.tasks then t.nextSeq - t.tasks[k].born else 0, 1
  {
    if k !in t.tasks then t
    else
      ChildrenYounger(t, k);
      var t1 := t.(tasks := t.tasks[k := Completed(t.tasks[k])]);
      LinksKeepInv(t, t1);
      MarkList(t1, t.tasks[k].born, ChildrenOf(t, Some(k)))
  }

  function MarkList(t: Tracker, s: int, ks: seq<Key>): (r: Tracker)
    requires TreeInv(t) && s < t.nextSeq && Younger(t, s, ks)
    ensures MarkedOrSame(t, r) && TreeInv(r)
    decreases t.nextSeq - s, 0, |ks|
  {
    if |ks| == 0 then t
    else
      var t1 := MarkFrom(t, ks[0]);
      MarkList(t1, s, ks[1..])
  }

  /** Parent links and sequence numbers agree; progress fields may differ. */
  ghost predicate SameLinks(a: Tracker, b: Tracker)
  {
    a.tasks.Keys == b.tasks.Keys
    && (forall k :: k in a.tasks ==> a.tasks[k].born == b.tasks[k].born && a.tasks[k].parent == b.tasks[k].parent)
    && a.children == b.children && a.nextSeq == b.nextSeq
  }

  /** Marking more tasks keeps a finished subtree finished. */
  lemma {:induction false} DoneStable(sh: Tracker, r: Tracker, r2: Tracker, k: Key)
    requires TreeInv(sh) && MarkedOrSame(r, r2) && SubtreeDone(sh, r, k)
    ensures SubtreeDone(sh, r2, k)
    decreases if k in sh.tasks then sh.nextSeq - sh.tasks[k].born else 0, 1
  {
    if k in sh.tasks {
      ChildrenYounger(sh, k);
      ListDoneStable(sh, r, r2, sh.tasks[k].born, ChildrenOf(sh, Some(k)));
    }
  }

  lemma {:induction false} ListDoneStable(sh: Tracker, r: Tracker, r2: Tracker, s: int, ks: seq<Key>)
    requires TreeInv(sh) && s < sh.nextSeq && Younger(sh, s, ks)
    requires MarkedOrSame(r, r2) && ListDone(sh, r, s, ks)
    ensures ListDone(sh, r2, s, ks)
    decreases sh.nextSeq - s, 0, |ks|
  {
    forall c | c in ks
      ensures SubtreeDone(sh, r2, c)
    {
      DoneStable(sh, r, r2, c);
    }
  }

  lemma {:induction false} MarkFromDone(sh: Tracker, t: Tracker, k: Key)
    requires TreeInv(sh) && TreeInv(t) && SameLinks(sh, t)
    ensures SubtreeDone(sh, MarkFrom(t, k), k)
    decreases if k in sh.tasks then sh.nextSeq - sh.tasks[k].born else 0, 1
  {
    if k in t.tasks {
      ChildrenYounger(sh, k);
      var t1 := t.(tasks := t.tasks[k := Completed(t.tasks[k])]);
      MarkOneReady(sh, t, k);
      MarkListDone(sh, t1, t.tasks[k].born, ChildrenOf(t, Some(k)));
      var r := MarkList(t1, t.tasks[k].born, ChildrenOf(t, Some(k)));
      assert r == MarkFrom(t, k);
      assert IsDone(r.tasks[k]) by {
        assert r.tasks[k] == t1.tasks[k] || r.tasks[k] == Completed(t1.tasks[k]);
      }
    }
  }

  /** Marking one task keeps the tree shape and its links. */
  lemma MarkOneReady(sh: Tracker, t: Tracker, k: Key)
    requires TreeInv(t) && SameLinks(sh, t) && k in t.tasks
    ensures var t1 := t.(tasks := t.tasks[k := Completed(t.tasks[k])]);
      TreeInv(t1) && SameLinks(sh, t1)
  {
    ProgressEditKeepsInv(t, k, Completed(t.tasks[k]));
  }

  /** Marks change no links, so a list stays younger and the links stay those of `sh`. */
  lemma MarkedKeepsLinks(sh: Tracker, t: Tracker, t1: Tracker, s: int, ks: seq<Key>)
    requires SameLinks(sh, t) && MarkedOrSame(t, t1) && Younger(sh, s, ks) && |ks| > 0
    ensures SameLinks(sh, t1) && Younger(t1, s, ks[1..]) && Younger(sh, s, ks[1..])
  {
    assert forall c :: c in ks[1..] ==> c in ks;
  }

  lemma {:induction false} MarkListDone(sh: Tracker, t: Tracker, s: int, ks: seq<Key>)
    requires TreeInv(sh) && TreeInv(t) && SameLinks(sh, t)
    requires s < sh.nextSeq && Younger(sh, s, ks)
    ensures ListDone(sh, MarkList(t, s, ks), s, ks)
    decreases sh.nextSeq - s, 0, |ks|
  {
    if |ks| > 0 {
      var t1 := MarkFrom(t, ks[0]);
      MarkedKeepsLinks(sh, t, t1, s, ks);
      var r := MarkList(t1, s, ks[1..]);
      assert r == MarkList(t, s, ks);
      MarkFromDone(sh, t, ks[0]);
      MarkListDone(sh, t1, s, ks[1..]);
      DoneStable(sh, t1, r, ks[0]);
      forall c | c in ks
        ensures SubtreeDone(sh, r, c)
      {
        if c != ks[0] {
          assert c in ks[1..];
        }
      }
    }
  }

  /** `complete_task`: mark the subtree complete, then roll up from the parent; an unknown key is ignored. */
  function CompleteTask(t: Tracker, key: Key): (r: Tracker)
    requires TreeInv(t)
    ensures TreeInv(r) && r.tasks.Keys == t.tasks.Keys && (Listed(t) ==> Listed(r))
    ensures key !in t.tasks ==> r == t
  {
    if key !in t.tasks then t
    else Recompute(MarkFrom(t, key), t.tasks[key].parent)
  }

  /**
   * Completing a task marks it and every task below it done, keeping a
   * known total and turning an unknown one into 1; nothing else but the
   * ancestors' roll-up changes.
   */
  lemma CompleteTaskMarksSubtree(t: Tracker, key: Key)
    requires TreeInv(t) && key in t.tasks
    ensures var m := MarkFrom(t, key);
      SubtreeDone(t, m, key)
      && (forall k :: k in t.tasks ==> m.tasks[k] == t.tasks[k] || m.tasks[k] == Completed(t.tasks[k]))
      && (forall k :: k in t.tasks && IsDone(m.tasks[k]) ==> m.tasks[k] == Completed(t.tasks[k]))
      && CompleteTask(t, key) == Recompute(m, t.tasks[key].parent)
  {
    MarkFromDone(t, t, key);
  }

  /** What `update_task` does to that task itself: set or advance `completed`, clamped into [0, total]. */
  function Updated(task: Task, defaultTotal: int, advance: int, completed: Option<int>): (u: Task)
    ensures task.total.None? && (completed.Some? || advance != 0) ==> u.total == Some(defaultTotal)
    ensures task.total.Some? ==> u.total == task.total
    ensures task.total.None? && completed.None? && advance == 0 ==> u == task
    ensures u.total.Some? ==> 0 <= u.completed && (u.total.value >= 0 ==> u.completed <= u.total.value)
    ensures u.total.Some? && completed.Some? && 0 <= completed.value <= u.total.value ==> u.completed == completed.value
    ensures u.total.Some? && completed.None? && 0 <= task.completed + advance <= u.total.value ==>
      u.completed == task.completed + advance
    ensures u.(total := task.total, completed := task.completed) == task
  {
    var total := if task.total.None? && (completed.Some? || advance != 0) then Some(defaultTotal) else task.total;
    var done :=
      if total.None? then task.completed
      else if completed.Some? then MaxI(0, MinI(completed.value, total.value))
      else MaxI(0, MinI(task.completed + advance, total.value));
    task.(total := total, completed := done)
  }

  /** Replacing one task's progress fields keeps the tree shape. */
  lemma ProgressEditKeepsInv(t: Tracker, key: Key, task: Task)
    requires TreeInv(t) && key in t.tasks
    requires task.parent == t.tasks[key].parent && task.born == t.tasks[key].born
    ensures TreeInv(t.(tasks := t.tasks[key := task]))
  {
  }

  /** `update_task`: update that task, then roll up its ancestors; unknown or removed keys are ignored. */
  function UpdateTask(t: Tracker, key: Key, advance: int, completed: Option<int>): (r: Tracker)
    requires TreeInv(t)
    ensures TreeInv(r) && r.tasks.Keys == t.tasks.Keys && (Listed(t) ==> Listed(r))
    ensures key !in t.tasks || t.tasks[key].removed ==> r == t
    ensures key in t.tasks && !t.tasks[key].removed ==>
      r.tasks[key] == Updated(t.tasks[key], t.defaultTotal, advance, completed)
  {
    if key !in t.tasks || t.tasks[key].removed then t
    else
      var task := t.tasks[key];
      var t1 := t.(tasks := t.tasks[key := Updated(task, t.defaultTotal, advance, completed)]);
      ProgressEditKeepsInv(t, key, Updated(task, t.defaultTotal, advance, completed));
      assert t1.tasks[key].born > Level(t1, task.parent);
      Recompute(t1, task.parent)
  }

  /** `set_total`: store max(1, total) and cap `completed` at it, then roll up the ancestors. */
  function SetTotal(t: Tracker, key: Key, total: int): (r: Tracker)
    requires TreeInv(t)
    ensures TreeInv(r) && r.tasks.Keys == t.tasks.Keys && (Listed(t) ==> Listed(r))
    ensures key !in t.tasks || t.tasks[key].removed ==> r == t
    ensures key in t.tasks && !t.tasks[key].removed ==>
      var old_ := t.tasks[key];
      var new_ := r.tasks[key];
      new_.total == Some(if total >= 1 then total else 1)
      && new_.completed <= new_.total.value
      && (old_.completed <= new_.total.value ==> new_.completed == old_.completed)
      && (old_.completed > new_.total.value ==> new_.completed == new_.total.value)
      && new_.(total := old_.total, completed := old_.completed) == old_
  {
    if key !in t.tasks || t.tasks[key].removed then t
    else
      var task := t.tasks[key];
      var n := MaxI(1, total);
      var t1 := t.(tasks := t.tasks[key := task.(total := Some(n), completed := MinI(task.completed, n))]);
      ProgressEditKeepsInv(t, key, task.(total := Some(n), completed := MinI(task.completed, n)));
      assert t1.tasks[key].born > Level(t1, task.parent);
      Recompute(t1, task.parent)
  }

  /** `activate_task`: raise the highlight flag of a live task. */
  function ActivateTask(t: Tracker, key: Key): (r: Tracker)
    requires TreeInv(t)
    ensures TreeInv(r) && r.tasks.Keys == t.tasks.Keys && (Listed(t) ==> Listed(r))
    ensures key !in t.tasks || t.tasks[key].removed ==> r == t
    ensures key in t.tasks && !t.tasks[key].removed ==>
      r.tasks[key].active && r.tasks[key].(active := t.tasks[key].active) == t.tasks[key]
      && r == t.(tasks := r.tasks)
      && forall k :: k in t.tasks && k != key ==> r.tasks[k] == t.tasks[k]
  {
    if key !in t.tasks || t.tasks[key].removed then t
    else
      ProgressEditKeepsInv(t, key, t.tasks[key].(active := true));
      t.(tasks := t.tasks[key := t.tasks[key].(active := true)])
  }

  /** `set_expected_children`: fix the expected total weight to max(0, count * weight). */
  function SetExpectedChildren(t: Tracker, key: Key, count: int, childWeight: real): (r: Tracker)
    requires TreeInv(t)
    ensures TreeInv(r) && r.tasks.Keys == t.tasks.Keys && (Listed(t) ==> Listed(r))
    ensures key !in t.tasks || t.tasks[key].removed ==> r == t
    ensures key in t.tasks && !t.tasks[key].removed ==>
      r.tasks[key].expectedWeight >= 0.0
      && (count as real * childWeight >= 0.0 ==> r.tasks[key].expectedWeight == count as real * childWeight)
      && (count as real * childWeight < 0.0 ==> r.tasks[key].expectedWeight == 0.0)
      && r.tasks[key].(expectedWeight := t.tasks[key].expectedWeight) == t.tasks[key]
      && forall k :: k in t.tasks && k != key ==> r.tasks[k] == t.tasks[k]
  {
    if key !in t.tasks || t.tasks[key].removed then t
    else
      var task := t.tasks[key].(expectedWeight := PyStr.MaxR(0.0, count as real * childWeight));
      ProgressEditKeepsInv(t, key, task);
      t.(tasks := t.tasks[key := task])
  }

  /** `get_task`: the entry under `key`, if any. */
  function GetTask(t: Tracker, key: Key): (r: Option<Task>)
    ensures r.Some? <==> key in t.tasks
    ensures r.Some? ==> r.value == t.tasks[key]
  {
    if key in t.tasks then Some(t.tasks[key]) else None
  }

  /**
   * `start_task` under the fresh key `key`: the weight is clamped at 0, the
   * key is appended to its parent's list and gets an empty list of its own,
   * and a live parent's expected weight follows its children while it is
   * in automatic mode (0, or equal to the sum of the other children).
   */
  function StartTask(t: Tracker, key: Key, name: string, parent: Option<Key>, weight: real, total: Option<int>): (r: Tracker)
    requires TreeInv(t) && Fresh(t, key) && parent != Some(key)
    ensures TreeInv(r) && r.nextSeq == t.nextSeq + 1 && (Listed(t) ==> Listed(r))
    ensures r.tasks.Keys == t.tasks.Keys + {key}
    ensures r.tasks[key] == Task(name, parent, PyStr.MaxR(0.0, weight), total, 0, false, t.nextSeq, false, 0.0, 0)
    ensures r.children == t.children[parent := ChildrenOf(t, parent) + [key]][Some(key) := []]
    ensures forall k :: k in t.tasks ==> SameButExpected(t.tasks[k], r.tasks[k], Some(k) == parent)
  {
    var task := Task(name, parent, PyStr.MaxR(0.0, weight), total, 0, false, t.nextSeq, false, 0.0, 0);
    var list := ChildrenOf(t, parent) + [key];
    var t1 := Tracker(t.tasks[key := task], t.children[parent := list][Some(key) := []],
                      t.contributions, t.defaultTotal, t.nextSeq + 1);
    StartKeepsInv(t, key, task);
    var tasks2 := ExpectChild(t1.tasks, list, parent, key, weight);
    LinksKeepInv(t1, t1.(tasks := tasks2));
    LinksKeepListed(t1, t1.(tasks := tasks2));
    t1.(tasks := tasks2)
  }

  /** The tree shape depends only on the links and sequence numbers. */
  lemma LinksKeepInv(t: Tracker, r: Tracker)
    requires TreeInv(t) && SameLinks(t, r)
    ensures TreeInv(r)
  {
  }

  lemma LinksKeepListed(t: Tracker, r: Tracker)
    requires SameLinks(t, r)
    ensures Listed(t) ==> Listed(r)
  {
  }

  /** `b` is `a`, except that its expected weight may differ when `mayDiffer`. */
  predicate SameButExpected(a: Task, b: Task, mayDiffer: bool)
  {
    if mayDiffer then b.(expectedWeight := a.expectedWeight) == a else b == a
  }

  /** Inserting the fresh task and its list entries keeps the tree shape. */
  lemma StartKeepsInv(t: Tracker, key: Key, task: Task)
    requires TreeInv(t) && Fresh(t, key) && task.parent != Some(key) && task.born == t.nextSeq
    ensures var r := Tracker(t.tasks[key := task],
                             t.children[task.parent := ChildrenOf(t, task.parent) + [key]][Some(key) := []],
                             t.contributions, t.defaultTotal, t.nextSeq + 1);
      TreeInv(r) && (Listed(t) ==> Listed(r))
  {
  }

  /** The expected-weight bookkeeping of `start_task` on the parent of the new task. */
  function ExpectChild(tasks: map<Key, Task>, list: seq<Key>, parent: Option<Key>, key: Key, weight: real)
    : (r: map<Key, Task>)
    ensures r.Keys == tasks.Keys
    ensures forall k :: k in tasks ==> SameButExpected(tasks[k], r[k], Some(k) == parent)
    ensures forall k :: k in tasks ==> r[k].parent == tasks[k].parent && r[k].born == tasks[k].born
  {
    if Truthy(parent) && parent.value in tasks then
      var pt := tasks[parent.value];
      if pt.expectedWeight == 0.0 then
        tasks[parent.value := pt.(expectedWeight := WeightSum(tasks, list, None))]
      else if pt.expectedWeight > 0.0 && Abs(pt.expectedWeight - WeightSum(tasks, list, Some(key))) < 0.001 then
        tasks[parent.value := pt.(expectedWeight := pt.expectedWeight + PyStr.MaxR(0.0, weight))]
      else tasks
    else tasks
  }

  function Abs(x: real): real { if x >= 0.0 then x else -x }

  lemma {:induction false} WeightSumAppend(tasks: map<Key, Task>, a: seq<Key>, b: seq<Key>, except: Option<Key>)
    ensures WeightSum(tasks, a + b, except) == WeightSum(tasks, a, except) + WeightSum(tasks, b, except)
    decreases |a|
  {
    if |a| == 0 {
      assert a + b == b;
    } else {
      assert (a + b)[1..] == a[1..] + b;
      WeightSumAppend(tasks, a[1..], b, except);
    }
  }

  /** Keys outside the list do not matter to its weight sum, nor does excluding one of them. */
  lemma {:induction false} WeightSumOutside(tasks: map<Key, Task>, ks: seq<Key>, key: Key, task: Task)
    requires key !in ks
    ensures WeightSum(tasks[key := task], ks, Some(key)) == WeightSum(tasks, ks, None)
    ensures WeightSum(tasks[key := task], ks, None) == WeightSum(tasks, ks, None)
  {
    if |ks| > 0 {
      assert key !in ks[1..];
      WeightSumOutside(tasks, ks[1..], key, task);
    }
  }

  /** Two task maps with the same weights on the listed keys give the same weight sum. */
  lemma {:induction false} WeightSumSameWeights(a: map<Key, Task>, b: map<Key, Task>, ks: seq<Key>)
    requires forall k :: k in ks ==> (k in a <==> k in b) && (k in a ==> a[k].weight == b[k].weight)
    ensures WeightSum(a, ks, None) == WeightSum(b, ks, None)
  {
    if |ks| > 0 {
      WeightSumSameWeights(a, b, ks[1..]);
    }
  }

  /**
   * While a parent's expected weight is the sum of its children's weights
   * (the automatic mode), adding a child keeps it the sum.
   */
  lemma AutoExpectedTracksChildren(t: Tracker, key: Key, name: string, p: Key, weight: real, total: Option<int>)
    requires TreeInv(t) && Fresh(t, key) && p != key && p != "" && p in t.tasks
    requires t.tasks[p].expectedWeight == WeightSum(t.tasks, ChildrenOf(t, Some(p)), None)
    ensures var r := StartTask(t, key, name, Some(p), weight, total);
      r.tasks[p].expectedWeight == WeightSum(r.tasks, r.children[Some(p)], None)
  {
    var r := StartTask(t, key, name, Some(p), weight, total);
    var task := Task(name, Some(p), PyStr.MaxR(0.0, weight), total, 0, false, t.nextSeq, false, 0.0, 0);
    var old_ := ChildrenOf(t, Some(p));
    assert r.tasks == ExpectChild(t.tasks[key := task], old_ + [key], Some(p), key, weight);
    assert r.children[Some(p)] == old_ + [key];
    ExpectChildSum(t.tasks, old_, p, key, task, weight);
  }

  lemma ExpectChildSum(tasks: map<Key, Task>, old_: seq<Key>, p: Key, key: Key, task: Task, weight: real)
    requires key !in old_ && key !in tasks && p in tasks && p != key && p != ""
    requires task.weight == PyStr.MaxR(0.0, weight)
    requires tasks[p].expectedWeight == WeightSum(tasks, old_, None)
    ensures var tasks1 := tasks[key := task];
      var r := ExpectChild(tasks1, old_ + [key], Some(p), key, weight);
      r[p].expectedWeight == WeightSum(r, old_ + [key], None)
  {
    var tasks1 := tasks[key := task];
    var list := old_ + [key];
    var r := ExpectChild(tasks1, list, Some(p), key, weight);
    WeightSumOutside(tasks, old_, key, task);
    WeightSumAppend(tasks1, old_, [key], Some(key));
    WeightSumAppend(tasks1, old_, [key], None);
    assert WeightSum(tasks1, [key], None) == PyStr.MaxR(0.0, weight);
    assert WeightSum(tasks1, [key], Some(key)) == 0.0;
    var pt := tasks1[p];
    if pt.expectedWeight == 0.0 {
      assert r[p].expectedWeight == WeightSum(tasks1, list, None);
    } else {
      assert WeightSum(tasks1, list, Some(key)) == pt.expectedWeight;
      assert r[p].expectedWeight == WeightSum(tasks1, list, None);
    }
    WeightSumSameWeights(tasks1, r, list);
  }

  /** Tasks may disappear; those left keep their links, weights and sequence numbers. */
  ghost predicate Shrunk(t: Tracker, r: Tracker)
  {
    r.tasks.Keys <= t.tasks.Keys
    && (forall k :: k in r.tasks ==>
          r.tasks[k].parent == t.tasks[k].parent && r.tasks[k].born == t.tasks[k].born
          && r.tasks[k].weight == t.tasks[k].weight)
    && r.nextSeq == t.nextSeq && r.defaultTotal == t.defaultTotal
  }

  /** The part of a removed task's work kept for its parent: its share, when the parent is a live key. */
  function PreserveShare(t: Tracker, root: Key): (r: Tracker)
    requires TreeInv(t) && root in t.tasks
    ensures TreeInv(r) && r.tasks == t.tasks && r.children == t.children
    ensures var p := t.tasks[root].parent;
      (Truthy(p) && p.value in t.tasks ==>
         Preserved(r, p.value) == Preserved(t, p.value) + Share(t.tasks[root])
         && forall k :: k != p.value ==> Preserved(r, k) == Preserved(t, k))
      && (!(Truthy(p) && p.value in t.tasks) ==> r == t)
  {
    var p := t.tasks[root].parent;
    if Truthy(p) && p.value in t.tasks then
      t.(contributions := t.contributions[p.value := Preserved(t, p.value) + Share(t.tasks[root])])
    else t
  }

  /**
   * `remove_subtree`: keep the root's share for its parent, remove the
   * children (from a snapshot of the list), then the root itself, and roll
   * up the parent; an unknown root is ignored.
   */
  function RemoveSubtree(t: Tracker, root: Key): (r: Tracker)
    requires TreeInv(t) && Listed(t)
    ensures TreeInv(r) && Listed(r) && Shrunk(t, r) && NoNewOrphans(t, r)
    ensures root !in r.tasks
    ensures root !in t.tasks ==> r == t
    ensures root in t.tasks ==> forall c :: c in ChildrenOf(t, Some(root)) ==> c !in r.tasks
    ensures root in t.tasks ==> forall k :: Below(t, k, root) ==> k !in r.tasks
    ensures root in t.tasks ==> OlderThanRootKept(t, r, root) && ParentGainsShare(t, r, root)
    decreases if root in t.tasks then t.nextSeq - t.tasks[root].born else 0, 1
  {
    if root !in t.tasks then t
    else
      var task := t.tasks[root];
      var parent := task.parent;
      var t1 := PreserveShare(t, root);
      ChildrenYounger(t, root);
      var t2 := RemoveKids(t1, root, ChildrenOf(t, Some(root)));
      var r := Detach(t2, root, parent);
      RootStepsKeepOlder(t, t1, t2, r, root);
      KidsGone(t, t2, root);
      OrphansCompose(t1, t2, r);
      NothingBelowSurvives(t, r, root);
      r
  }

  /**
   * `k` hangs below `root` along parent links, each step to an older task
   * (the last link may name `root` itself).
   */
  ghost predicate Below(t: Tracker, k: Key, root: Key)
    decreases if k in t.tasks then t.tasks[k].born else 0
  {
    k in t.tasks && t.tasks[k].parent.Some?
    && var p := t.tasks[k].parent.value;
       (p == root || (p in t.tasks && t.tasks[p].born < t.tasks[k].born && Below(t, p, root)))
  }

  /** A task left in `r` whose parent was a task in `t` still has that parent. */
  ghost predicate NoNewOrphans(t: Tracker, r: Tracker)
  {
    forall k :: k in r.tasks && r.tasks[k].parent.Some? && r.tasks[k].parent.value in t.tasks ==>
      r.tasks[k].parent.value in r.tasks
  }

  /** The removed root's share is added to its parent's preserved work when the parent is a live key. */
  ghost predicate ParentGainsShare(t: Tracker, r: Tracker, root: Key)
    requires root in t.tasks
  {
    var p := t.tasks[root].parent;
    Truthy(p) && p.value in t.tasks ==> Preserved(r, p.value) == Preserved(t, p.value) + Share(t.tasks[root])
  }

  /** After the loop over the root's list no task names the root as its parent: every such task was listed. */
  lemma KidsGone(t: Tracker, t2: Tracker, root: Key)
    requires Listed(t) && Shrunk(t, t2)
    requires forall c :: c in ChildrenOf(t, Some(root)) ==> c !in t2.tasks
    ensures forall k :: k in t2.tasks ==> t2.tasks[k].parent != Some(root)
  {
  }

  lemma OrphansCompose(t: Tracker, t1: Tracker, r: Tracker)
    requires Shrunk(t, t1) && Shrunk(t1, r) && NoNewOrphans(t, t1) && NoNewOrphans(t1, r)
    ensures NoNewOrphans(t, r)
  {
    forall k | k in r.tasks && r.tasks[k].parent.Some? && r.tasks[k].parent.value in t.tasks
      ensures r.tasks[k].parent.value in r.tasks
    {
      assert k in t1.tasks && t1.tasks[k].parent == r.tasks[k].parent;
    }
  }

  /** Once the root is gone and nothing was orphaned, no task below it can be left. */
  lemma NothingBelowSurvives(t: Tracker, r: Tracker, root: Key)
    requires Shrunk(t, r) && NoNewOrphans(t, r) && root in t.tasks && root !in r.tasks
    ensures forall k :: Below(t, k, root) ==> k !in r.tasks
  {
    forall k | Below(t, k, root)
      ensures k !in r.tasks
    {
      NotBelowSurvivor(t, r, root, k);
    }
  }

  lemma {:induction false} NotBelowSurvivor(t: Tracker, r: Tracker, root: Key, k: Key)
    requires Shrunk(t, r) && NoNewOrphans(t, r) && root in t.tasks && root !in r.tasks
    requires Below(t, k, root)
    ensures k !in r.tasks
    decreases t.tasks[k].born
  {
    var p := t.tasks[k].parent.value;
    if p != root {
      NotBelowSurvivor(t, r, root, p);
    }
  }

  /** Every task older than `root` survives, and so does the preserved work of all but the root's parent. */
  ghost predicate OlderThanRootKept(t: Tracker, r: Tracker, root: Key)
    requires root in t.tasks
  {
    (forall k :: k in t.tasks && t.tasks[k].born < t.tasks[root].born ==> k in r.tasks)
    && (forall k :: k !in t.tasks || (t.tasks[k].born < t.tasks[root].born && Some(k) != t.tasks[root].parent) ==>
          Preserved(r, k) == Preserved(t, k))
  }

  lemma RootStepsKeepOlder(t: Tracker, t1: Tracker, t2: Tracker, r: Tracker, root: Key)
    requires root in t.tasks && t1.tasks == t.tasks
    requires forall k :: k !in t.tasks || Some(k) != t.tasks[root].parent ==> Preserved(t1, k) == Preserved(t, k)
    requires Shrunk(t1, t2) && OlderKept(t1, t2, root)
    requires r.tasks.Keys == t2.tasks.Keys - {root} && r.contributions == t2.contributions
    requires TreeInv(t) && ParentGainsShare(t, t1, root)
    ensures OlderThanRootKept(t, r, root) && ParentGainsShare(t, r, root)
  {
    var p := t.tasks[root].parent;
    if Truthy(p) && p.value in t.tasks {
      assert Preserved(t2, p.value) == Preserved(t1, p.value);
    }
    forall k | k in t.tasks && t.tasks[k].born < t.tasks[root].born
      ensures k in r.tasks
    {
      assert k in t2.tasks && k != root;
    }
    forall k | k !in t.tasks || (t.tasks[k].born < t.tasks[root].born && Some(k) != t.tasks[root].parent)
      ensures Preserved(r, k) == Preserved(t, k)
    {
      assert Preserved(t1, k) == Preserved(t, k);
      assert Preserved(t2, k) == Preserved(t1, k);
    }
  }

  /** What removing a child of `owner` leaves of the tasks not younger than `owner`. */
  lemma ChildRemovalKeepsOlder(t: Tracker, t1: Tracker, owner: Key, c: Key)
    requires TreeInv(t) && owner in t.tasks
    requires c in t.tasks ==> t.tasks[c].parent == Some(owner) && OlderThanRootKept(t, t1, c)
    requires c !in t.tasks ==> t1 == t
    ensures OlderKept(t, t1, owner)
  {
  }

  /** The end of `remove_subtree`: drop the root's list, its entry in the parent's list and the entry itself, then roll up. */
  function Detach(t: Tracker, root: Key, parent: Option<Key>): (r: Tracker)
    requires TreeInv(t) && Listed(t) && forall k :: k in t.tasks ==> t.tasks[k].parent != Some(root)
    ensures TreeInv(r) && Listed(r) && Shrunk(t, r) && NoNewOrphans(t, r)
    ensures r.tasks.Keys == t.tasks.Keys - {root} && r.contributions == t.contributions
  {
    var t1 := Unlink(t, root, parent);
    var r := if Truthy(parent) then Recompute(t1, parent) else t1;
    ShapeKeepsListed(t1, r);
    r
  }

  /** The three removals of `remove_subtree`, before the roll-up. */
  function Unlink(t: Tracker, root: Key, parent: Option<Key>): (r: Tracker)
    requires TreeInv(t) && Listed(t) && forall k :: k in t.tasks ==> t.tasks[k].parent != Some(root)
    ensures TreeInv(r) && Listed(r) && Shrunk(t, r) && NoNewOrphans(t, r)
    ensures r.tasks.Keys == t.tasks.Keys - {root} && r.contributions == t.contributions
  {
    DropKeepsListed(t, root, parent);
    Drop(t, root, parent)
  }

  function Drop(t: Tracker, root: Key, parent: Option<Key>): Tracker
  {
    var kids := t.children - {Some(root)};
    var kids' := if parent in kids && root in kids[parent] then kids[parent := PyStr.RemoveFirst(kids[parent], root)] else kids;
    t.(tasks := t.tasks - {root}, children := kids')
  }

  /** Dropping the root's entry from its parent's list leaves every other task listed. */
  lemma DropKeepsListed(t: Tracker, root: Key, parent: Option<Key>)
    requires Listed(t) && forall k :: k in t.tasks ==> t.tasks[k].parent != Some(root)
    ensures Listed(Drop(t, root, parent))
  {
    var r := Drop(t, root, parent);
    forall k | k in r.tasks
      ensures r.tasks[k].parent in r.children && k in r.children[r.tasks[k].parent]
    {
      var p := t.tasks[k].parent;
      if p == parent && parent in t.children && root in t.children[parent] {
        assert multiset(t.children[p])[k] > 0;
      }
    }
  }

  lemma ShapeKeepsListed(t: Tracker, r: Tracker)
    requires Listed(t) && SameShape(t, r)
    ensures Listed(r)
  {
  }

  /** The loop over the snapshot of `owner`'s children in `remove_subtree`. */
  function RemoveKids(t: Tracker, owner: Key, ks: seq<Key>): (r: Tracker)
    requires TreeInv(t) && Listed(t) && owner in t.tasks
    requires forall c :: c in ks && c in t.tasks ==> t.tasks[c].parent == Some(owner)
    ensures TreeInv(r) && Shrunk(t, r)
    ensures forall c :: c in ks ==> c !in r.tasks
    ensures OlderKept(t, r, owner) && Listed(r) && NoNewOrphans(t, r)
    decreases t.nextSeq - t.tasks[owner].born, 0, |ks|
  {
    if |ks| == 0 then t
    else
      var t1 := if ks[0] in t.tasks then RemoveSubtree(t, ks[0]) else t;
      ChildRemovalKeepsOlder(t, t1, owner, ks[0]);
      assert forall c :: c in ks[1..] ==> c in ks;
      var r := RemoveKids(t1, owner, ks[1..]);
      KeepsOlder(t, t1, r, owner);
      OrphansCompose(t, t1, r);
      r
  }

  /** Every task not younger than `owner` survives from `t` to `r` with its preserved work. */
  ghost predicate OlderKept(t: Tracker, r: Tracker, owner: Key)
    requires owner in t.tasks
  {
    (forall k :: k in t.tasks && t.tasks[k].born <= t.tasks[owner].born ==> k in r.tasks)
    && (forall k :: k !in t.tasks || t.tasks[k].born < t.tasks[owner].born ==> Preserved(r, k) == Preserved(t, k))
  }

  lemma KeepsOlder(t: Tracker, t1: Tracker, r: Tracker, owner: Key)
    requires owner in t.tasks && Shrunk(t, t1) && Shrunk(t1, r)
    requires OlderKept(t, t1, owner) && owner in t1.tasks && OlderKept(t1, r, owner)
    ensures Shrunk(t, r) && OlderKept(t, r, owner)
  {
  }

  /**
   * The weighted roll-up: a parent expecting weight 3 whose children have
   * weight 2 at 5/10 and weight 1 at 10/20 shows 50 of the default 100.
   */
  lemma WeightedRollupExample(t: Tracker)
    requires TreeInv(t) && t.defaultTotal == 100
    requires "p" in t.tasks && "c1" in t.tasks && "c2" in t.tasks
    requires ChildrenOf(t, Some("p")) == ["c1", "c2"] && Preserved(t, "p") == 0.0
    requires t.tasks["p"].expectedWeight == 3.0 && t.tasks["p"].total == None && t.tasks["p"].maxCompleted <= 50
    requires t.tasks["c1"].weight == 2.0 && t.tasks["c1"].total == Some(10) && t.tasks["c1"].completed == 5
    requires t.tasks["c2"].weight == 1.0 && t.tasks["c2"].total == Some(20) && t.tasks["c2"].completed == 10
    ensures RecomputeOne(t, "p").tasks["p"].total == Some(100)
    ensures RecomputeOne(t, "p").tasks["p"].completed == 50
  {
    assert Ratio(t.tasks["c1"]) == 0.5;
    assert Ratio(t.tasks["c2"]) == 0.5;
    assert ["c1", "c2"][1..] == ["c2"];
    assert WorkOf(t.tasks, ["c1", "c2"]) == 1.5;
    assert RollupRatio(t, "p") == 0.5;
    assert RollupTarget(t, "p") == RoundHalfEven(50.0);
    RoundOfInteger(50);
  }

  /** The first part of the sort key of `iter_children`: keys that are not tasks come first. */
  function Rank(t: Tracker, k: Key): nat
  {
    if k in t.tasks then t.tasks[k].born + 1 else 0
  }

  /** The order of `iter_children`: by creation, then by key. */
  predicate KeyLe(t: Tracker, a: Key, b: Key)
  {
    Rank(t, a) < Rank(t, b) || (Rank(t, a) == Rank(t, b) && PyStr.StrLe(a, b))
  }

  predicate SortedKeys(t: Tracker, ks: seq<Key>)
  {
    forall i, j :: 0 <= i < j < |ks| ==> KeyLe(t, ks[i], ks[j])
  }

  lemma KeyLeTrans(t: Tracker, a: Key, b: Key, c: Key)
    requires KeyLe(t, a, b) && KeyLe(t, b, c)
    ensures KeyLe(t, a, c)
  {
    if Rank(t, a) == Rank(t, b) == Rank(t, c) {
      PyStr.StrLeTrans(a, b, c);
    }
  }

  lemma KeyLeTotal(t: Tracker, a: Key, b: Key)
    ensures KeyLe(t, a, b) || KeyLe(t, b, a)
  {
    PyStr.StrLeTotal(a, b);
  }

  /** Inserting `x` before the first key it does not follow keeps the list ordered. */
  function InsertKey(t: Tracker, x: Key, ks: seq<Key>): (r: seq<Key>)
    requires SortedKeys(t, ks)
    ensures SortedKeys(t, r)
    ensures multiset(r) == multiset(ks) + multiset{x}
  {
    if |ks| == 0 then [x]
    else if KeyLe(t, x, ks[0]) then
      InsertFront(t, x, ks);
      [x] + ks
    else
      KeyLeTotal(t, x, ks[0]);
      var rest := InsertKey(t, x, ks[1..]);
      assert ks == [ks[0]] + ks[1..];
      InsertBehind(t, x, ks, rest);
      [ks[0]] + rest
  }

  lemma InsertFront(t: Tracker, x: Key, ks: seq<Key>)
    requires SortedKeys(t, ks) && |ks| > 0 && KeyLe(t, x, ks[0])
    ensures SortedKeys(t, [x] + ks)
  {
    forall j | 0 <= j < |ks| ensures KeyLe(t, x, ks[j]) {
      if j > 0 { KeyLeTrans(t, x, ks[0], ks[j]); }
    }
  }

  lemma InsertBehind(t: Tracker, x: Key, ks: seq<Key>, rest: seq<Key>)
    requires SortedKeys(t, ks) && |ks| > 0 && KeyLe(t, ks[0], x)
    requires SortedKeys(t, rest) && multiset(rest) == multiset(ks[1..]) + multiset{x}
    ensures SortedKeys(t, [ks[0]] + rest)
  {
    var r := [ks[0]] + rest;
    forall j | 0 < j < |r| ensures KeyLe(t, ks[0], r[j]) {
      assert r[j] in multiset(rest);
      if r[j] != x {
        assert r[j] in multiset(ks[1..]);
        var i :| 0 <= i < |ks[1..]| && ks[1..][i] == r[j];
        assert ks[i + 1] == r[j];
      }
    }
  }

  /**
   * `iter_children`: the children of `parent` ordered by creation, then by
   * key; listed keys that are not tasks sort first.
   */
  function IterChildren(t: Tracker, parent: Option<Key>): (r: seq<Key>)
    ensures multiset(r) == multiset(ChildrenOf(t, parent))
    ensures SortedKeys(t, r)
  {
    SortKeys(t, ChildrenOf(t, parent))
  }

  function SortKeys(t: Tracker, ks: seq<Key>): (r: seq<Key>)
    ensures multiset(r) == multiset(ks)
    ensures SortedKeys(t, r)
  {
    if |ks| == 0 then []
    else
      assert ks == ks[..|ks| - 1] + [ks[|ks| - 1]];
      InsertKey(t, ks[|ks| - 1], SortKeys(t, ks[..|ks| - 1]))
  }
}
