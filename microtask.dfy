/**
 * The Arduino firmware's microtask scheduler: a run queue of tasks sorted by
 * deadline, and a queue of blocked periodic tasks.  `run_scheduler` slices
 * off the tasks that are due, runs them, puts periodic ones back (on the
 * blocked queue if they are blocked) and deletes one-shot tasks that did not
 * reschedule themselves; it returns how long the caller may sleep.
 *
 * A `MicroTask*` is a task id, and the task objects are a table from ids to
 * their fields; the intrusive `next` links are the order of the queue
 * sequences.  `millis()` is the parameter `now`, read once per call, and
 * `unsigned long` arithmetic wraps at 2^32.  What a task's `execute` does is
 * the parameter `effect`: nothing, `block_microtask` or
 * `sched_microtask_after` on the task itself.
 */
module Microtask {
  /** `unsigned long` is 32 bits wide on the ESP32. */
  const Two32 := 0x1_0000_0000
  const ULongMax := 0xFFFF_FFFF
  /** The sleep time of an idle system. */
  const IdleMs := 1000

  type TaskId = nat

  /** The scheduler's fields of a `MicroTask`, and its `only_when_device_enabled()`. */
  datatype Task = Task(periodic: bool, delayMs: nat, deadline: nat, rescheduled: bool, blocked: bool, onlyWhenEnabled: bool)

  /** A task as its member initialisers leave it. */
  function NewTask(onlyWhenEnabled: bool): Task {
    Task(false, 0, 0, false, false, onlyWhenEnabled)
  }

  /** What one call of a task's `execute` does to the task itself. */
  datatype Effect = Idle | BlockSelf | RescheduleSelf(delayMs: nat)

  /** The task objects, `task_queue` and `blocked_queue`. */
  datatype Sched = Sched(tasks: map<TaskId, Task>, queue: seq<TaskId>, blocked: seq<TaskId>)

  /** `unsigned long` addition. */
  function Wrap(x: nat): (r: nat)
    ensures r < Two32 && (x < Two32 ==> r == x)
  {
    x % Two32
  }

  predicate InTable(tasks: map<TaskId, Task>, q: seq<TaskId>) {
    forall i :: 0 <= i < |q| ==> q[i] in tasks
  }

  predicate Distinct(q: seq<TaskId>) {
    forall i, j :: 0 <= i < j < |q| ==> q[i] != q[j]
  }

  /** The deadlines along a queue. */
  function Deadlines(tasks: map<TaskId, Task>, q: seq<TaskId>): (r: seq<nat>)
    requires InTable(tasks, q)
    ensures |r| == |q| && forall i :: 0 <= i < |q| ==> r[i] == tasks[q[i]].deadline
  {
    seq(|q|, i requires 0 <= i < |q| => tasks[q[i]].deadline)
  }

  predicate Sorted(ds: seq<nat>) {
    forall i, j :: 0 <= i < j < |ds| ==> ds[i] <= ds[j]
  }

  /**
   * How many leading deadlines are at most `d`: where `add_task` links in
   * a task of deadline `d`, and how many tasks `run_scheduler` slices off at
   * time `d`.
   */
  function LeadingAtMost(ds: seq<nat>, d: nat): (k: nat)
    ensures k <= |ds|
    ensures forall i :: 0 <= i < k ==> ds[i] <= d
    ensures k < |ds| ==> d < ds[k]
  {
    if ds == [] || d < ds[0] then 0 else 1 + LeadingAtMost(ds[1..], d)
  }

  /** `add_task`: the task goes after every leading task whose deadline is not later than its own. */
  function Insert(tasks: map<TaskId, Task>, q: seq<TaskId>, id: TaskId): seq<TaskId>
    requires InTable(tasks, q) && id in tasks
  {
    var k := LeadingAtMost(Deadlines(tasks, q), tasks[id].deadline);
    q[..k] + [id] + q[k..]
  }

  /** The scheduler's invariant. */
  ghost predicate Good(s: Sched) {
    InTable(s.tasks, s.queue) && InTable(s.tasks, s.blocked)
    && Distinct(s.queue) && Distinct(s.blocked)
    && (forall x :: x in s.queue ==> x !in s.blocked)
    && Sorted(Deadlines(s.tasks, s.queue))
    && (forall i :: 0 <= i < |s.blocked| ==> s.tasks[s.blocked[i]].deadline == 0)
    && (forall x :: x in s.tasks ==> s.tasks[x].deadline < Two32)
  }

  // ------------------------------------------------------------ add_task

  /** The position `LeadingAtMost` finds is the only one with its two properties. */
  lemma {:induction false} LeadingAtMostIs(ds: seq<nat>, d: nat, k: nat)
    requires k <= |ds| && (forall i :: 0 <= i < k ==> ds[i] <= d) && (k < |ds| ==> d < ds[k])
    ensures LeadingAtMost(ds, d) == k
  {
    if k > 0 {
      LeadingAtMostIs(ds[1..], d, k - 1);
    }
  }

  /**
   * `add_task` keeps a sorted queue sorted, adds exactly the new task, and
   * puts it after the tasks with an equal deadline and before the later ones.
   */
  lemma InsertSorted(tasks: map<TaskId, Task>, q: seq<TaskId>, id: TaskId)
    requires InTable(tasks, q) && id in tasks && Sorted(Deadlines(tasks, q))
    ensures var r := Insert(tasks, q, id);
      var k := LeadingAtMost(Deadlines(tasks, q), tasks[id].deadline);
      InTable(tasks, r) && Sorted(Deadlines(tasks, r)) && r[k] == id
      && (forall i :: 0 <= i < k ==> tasks[r[i]].deadline <= tasks[id].deadline)
      && (forall i :: k < i < |r| ==> tasks[id].deadline < tasks[r[i]].deadline)
  {
    hide Insert, LeadingAtMost, Deadlines;
    var ds := Deadlines(tasks, q);
    var d := tasks[id].deadline;
    var k := LeadingAtMost(ds, d);
    var r := Insert(tasks, q, id);
    InsertIs(tasks, q, id);
    SpliceAt(q, k, id);
    assert InTable(tasks, r);
    forall i, j | 0 <= i < j < |r|
      ensures tasks[r[i]].deadline <= tasks[r[j]].deadline
    {
      if i < k && j < k {
        assert ds[i] <= ds[j];
      } else if i < k && j > k {
        assert ds[i] <= ds[j - 1];
      } else if i > k {
        assert ds[i - 1] <= ds[j - 1];
      }
    }
    var dr := Deadlines(tasks, r);
    assert forall i, j :: 0 <= i < j < |dr| ==> dr[i] <= dr[j];
  }

  /** The positions of a queue with `id` linked in at position `k`. */
  lemma InsertIs(tasks: map<TaskId, Task>, q: seq<TaskId>, id: TaskId)
    requires InTable(tasks, q) && id in tasks
    ensures var k := LeadingAtMost(Deadlines(tasks, q), tasks[id].deadline);
      Insert(tasks, q, id) == q[..k] + [id] + q[k..]
  {
  }

  lemma SpliceAt(q: seq<TaskId>, k: nat, id: TaskId)
    requires k <= |q|
    ensures var r := q[..k] + [id] + q[k..];
      |r| == |q| + 1 && r[k] == id
      && (forall i :: 0 <= i < k ==> r[i] == q[i])
      && (forall i :: k < i < |r| ==> r[i] == q[i - 1])
  {
  }

  /** The tasks of the queue after `add_task`, and its distinctness. */
  lemma InsertMembers(tasks: map<TaskId, Task>, q: seq<TaskId>, id: TaskId)
    requires InTable(tasks, q) && id in tasks
    ensures var r := Insert(tasks, q, id);
      |r| == |q| + 1 && InTable(tasks, r) && id in r
      && (forall x :: x in r <==> x in q || x == id)
      && (Distinct(q) && id !in q ==> Distinct(r))
  {
    var k := LeadingAtMost(Deadlines(tasks, q), tasks[id].deadline);
    assert Insert(tasks, q, id) == q[..k] + [id] + q[k..];
    hide Insert, LeadingAtMost, Deadlines;
    SpliceMembers(q, k, id);
  }

  /** Linking `id` in at position `k`. */
  lemma SpliceMembers(q: seq<TaskId>, k: nat, id: TaskId)
    requires k <= |q|
    ensures var r := q[..k] + [id] + q[k..];
      |r| == |q| + 1 && id in r
      && (forall x :: x in r <==> x in q || x == id)
      && (Distinct(q) && id !in q ==> Distinct(r))
  {
    SpliceIn(q, k, id);
    if Distinct(q) && id !in q {
      SpliceDistinct(q, k, id);
    }
  }

  /** The tasks of the queue with `id` linked in at position `k`. */
  lemma SpliceIn(q: seq<TaskId>, k: nat, id: TaskId)
    requires k <= |q|
    ensures var r := q[..k] + [id] + q[k..];
      |r| == |q| + 1 && id in r && forall x :: x in r <==> x in q || x == id
  {
    var r := q[..k] + [id] + q[k..];
    SpliceAt(q, k, id);
    assert r[k] == id;
    forall x | x in r ensures x in q || x == id {
      var i :| 0 <= i < |r| && r[i] == x;
      if i < k {
        assert q[i] == x;
      } else if i > k {
        assert q[i - 1] == x;
      }
    }
    forall x | x in q ensures x in r {
      var i :| 0 <= i < |q| && q[i] == x;
      if i < k {
        assert r[i] == x;
      } else {
        assert r[i + 1] == x;
      }
    }
  }

  /** Linking in a task that is not queued keeps the queue free of repeats. */
  lemma SpliceDistinct(q: seq<TaskId>, k: nat, id: TaskId)
    requires k <= |q| && Distinct(q) && id !in q
    ensures Distinct(q[..k] + [id] + q[k..])
  {
    var r := q[..k] + [id] + q[k..];
    SpliceAt(q, k, id);
    forall i, j | 0 <= i < j < |r|
      ensures r[i] != r[j]
    {
      var qi := if i < k then i else i - 1;
      var qj := if j < k then j else j - 1;
      assert i != k ==> r[i] == q[qi];
      assert j != k ==> r[j] == q[qj];
    }
  }

  /** On a queue whose deadlines are all 0, a task of deadline 0 goes last: the blocked queue is FIFO. */
  lemma InsertZero(tasks: map<TaskId, Task>, q: seq<TaskId>, id: TaskId)
    requires InTable(tasks, q) && id in tasks && tasks[id].deadline == 0
    requires forall i :: 0 <= i < |q| ==> tasks[q[i]].deadline == 0
    ensures Insert(tasks, q, id) == q + [id]
  {
    LeadingAtMostIs(Deadlines(tasks, q), 0, |q|);
  }

  /** Changes that keep the deadlines of a queue's tasks leave its deadlines alone. */
  lemma DeadlinesFrame(tasks: map<TaskId, Task>, tasks': map<TaskId, Task>, q: seq<TaskId>)
    requires InTable(tasks, q) && forall x :: x in q ==> x in tasks' && tasks'[x].deadline == tasks[x].deadline
    ensures InTable(tasks', q) && Deadlines(tasks', q) == Deadlines(tasks, q)
  {
  }

  /**
   * `add_task`'s walk: past every task whose deadline is not later than
   * the new one's.
   */
  method AddTask(tasks: map<TaskId, Task>, q: seq<TaskId>, id: TaskId) returns (r: seq<TaskId>)
    requires InTable(tasks, q) && id in tasks
    ensures r == Insert(tasks, q, id)
  {
    var k := 0;
    while k < |q| && tasks[q[k]].deadline <= tasks[id].deadline
      invariant k <= |q|
      invariant forall i :: 0 <= i < k ==> tasks[q[i]].deadline <= tasks[id].deadline
    {
      k := k + 1;
    }
    LeadingAtMostIs(Deadlines(tasks, q), tasks[id].deadline, k);
    r := q[..k] + [id] + q[k..];
  }

  // ------------------------------------------------------------ state changes, as values

  /** A change to one task's fields that keeps its deadline. */
  function Update(s: Sched, id: TaskId, t: Task): (r: Sched)
    requires Good(s) && id in s.tasks && t.deadline == s.tasks[id].deadline
    ensures Good(r) && r.queue == s.queue && r.blocked == s.blocked && r.tasks == s.tasks[id := t]
  {
    var r := s.(tasks := s.tasks[id := t]);
    DeadlinesFrame(s.tasks, r.tasks, s.queue);
    r
  }

  /** The task, with fields `t`, linked into the run queue by `add_task`. */
  function Enqueue(s: Sched, id: TaskId, t: Task): (r: Sched)
    requires Good(s) && id !in s.queue && id !in s.blocked && t.deadline < Two32
    ensures Good(r) && r.tasks == s.tasks[id := t] && r.blocked == s.blocked
    ensures id in r.queue && forall x :: x in r.queue <==> x in s.queue || x == id
  {
    var tasks := s.tasks[id := t];
    DeadlinesFrame(s.tasks, tasks, s.queue);
    DeadlinesFrame(s.tasks, tasks, s.blocked);
    InsertSorted(tasks, s.queue, id);
    InsertMembers(tasks, s.queue, id);
    Sched(tasks, Insert(tasks, s.queue, id), s.blocked)
  }

  /** A blocked task, with fields `t` and deadline 0, linked into the blocked queue: at its end. */
  function Park(s: Sched, id: TaskId, t: Task): (r: Sched)
    requires Good(s) && id !in s.queue && id !in s.blocked && t.deadline == 0
    ensures Good(r) && r.tasks == s.tasks[id := t] && r.queue == s.queue && r.blocked == s.blocked + [id]
  {
    var tasks := s.tasks[id := t];
    DeadlinesFrame(s.tasks, tasks, s.queue);
    DeadlinesFrame(s.tasks, tasks, s.blocked);
    InsertZero(tasks, s.blocked, id);
    Sched(tasks, s.queue, Insert(tasks, s.blocked, id))
  }

  /**
   * `sched_microtask_after`: the task becomes a rescheduled one-shot task
   * due `delay` ms from now, on the run queue.
   */
  function ScheduleAfter(s: Sched, id: TaskId, delay: nat, now: nat): (r: Sched)
    requires Good(s) && id in s.tasks && id !in s.queue && id !in s.blocked
    ensures Good(r) && id in r.queue && id in r.tasks && r.blocked == s.blocked
    ensures var t := r.tasks[id];
      !t.periodic && t.rescheduled && t.deadline == Wrap(now + delay)
      && t.delayMs == s.tasks[id].delayMs && t.blocked == s.tasks[id].blocked
    ensures forall x :: x != id ==> (x in r.tasks <==> x in s.tasks) && (x in s.tasks ==> r.tasks[x] == s.tasks[x])
    ensures forall x :: x in r.queue <==> x in s.queue || x == id
  {
    Enqueue(s, id, s.tasks[id].(periodic := false, rescheduled := true, deadline := Wrap(now + delay)))
  }

  /** `sched_microtask_periodically`: a periodic task, due now, with the given interval. */
  function SchedulePeriodically(s: Sched, id: TaskId, interval: nat, now: nat): (r: Sched)
    requires Good(s) && id in s.tasks && id !in s.queue && id !in s.blocked && now < Two32
    ensures Good(r) && id in r.queue && id in r.tasks && r.blocked == s.blocked
    ensures var t := r.tasks[id];
      t.periodic && t.deadline == now && t.delayMs == interval
      && t.rescheduled == s.tasks[id].rescheduled && t.blocked == s.tasks[id].blocked
    ensures forall x :: x in r.queue <==> x in s.queue || x == id
  {
    Enqueue(s, id, s.tasks[id].(periodic := true, deadline := now, delayMs := interval))
  }

  /** `block_microtask`: only a periodic task can be blocked. */
  function BlockTask(t: Task): (r: Task)
    ensures r.blocked == (t.blocked || t.periodic)
    ensures r.(blocked := t.blocked) == t
  {
    if t.periodic then t.(blocked := true) else t
  }

  /** The tasks `run_scheduler` executes: those not blocked, and enabled if they must be. */
  predicate Runs(t: Task, enabled: bool) {
    !t.blocked && (enabled || !t.onlyWhenEnabled)
  }

  /** One call of `execute` on task `id`, whose `rescheduled` flag the scheduler has just cleared. */
  function Execute(s: Sched, id: TaskId, e: Effect, now: nat): (r: Sched)
    requires Good(s) && id in s.tasks && id !in s.queue && id !in s.blocked && !s.tasks[id].rescheduled
    ensures Good(r) && id in r.tasks && r.blocked == s.blocked
    ensures forall x :: x != id ==> (x in r.tasks <==> x in s.tasks) && (x in s.tasks ==> r.tasks[x] == s.tasks[x])
    ensures forall x :: x in r.queue <==> x in s.queue || (x == id && e.RescheduleSelf?)
    ensures var t, t0 := r.tasks[id], s.tasks[id];
      match e
      case Idle => t == t0
      case BlockSelf => t == BlockTask(t0)
      case RescheduleSelf(d) => !t.periodic && t.rescheduled && t.deadline == Wrap(now + d)
  {
    match e
    case Idle => s
    case BlockSelf => Update(s, id, BlockTask(s.tasks[id]))
    case RescheduleSelf(d) => ScheduleAfter(s, id, d, now)
  }

  /** Between `execute` and the re-queueing: a task is on the run queue exactly when it rescheduled itself. */
  ghost predicate Executed(s: Sched, id: TaskId) {
    Good(s) && id in s.tasks && id !in s.blocked
    && (id in s.queue <==> s.tasks[id].rescheduled)
    && (s.tasks[id].rescheduled ==> !s.tasks[id].periodic)
  }

  /**
   * What `run_scheduler` does with a task after its turn, by the fields the
   * turn left: a periodic task goes to the end of the blocked queue with
   * deadline 0 if it is blocked, and back on the run queue at now + delay
   * if not; a rescheduled one-shot task stays where `execute` put it; any
   * other one-shot task is deleted.
   */
  function Settle(s: Sched, id: TaskId, now: nat): (r: Sched)
    requires Executed(s, id)
    ensures Good(r)
    ensures forall x :: x != id ==> (x in r.tasks <==> x in s.tasks) && (x in s.tasks ==> r.tasks[x] == s.tasks[x])
    ensures forall x :: x in r.queue ==> x in s.queue || x == id
    ensures forall x :: x in r.blocked ==> x in s.blocked || x == id
    ensures var t := s.tasks[id];
      (t.periodic && t.blocked ==>
         id in r.tasks && r.tasks[id] == t.(deadline := 0) && r.queue == s.queue && r.blocked == s.blocked + [id])
      && (t.periodic && !t.blocked ==>
         id in r.tasks && r.tasks[id] == t.(deadline := Wrap(now + t.delayMs)) && id in r.queue && r.blocked == s.blocked)
      && (!t.periodic && t.rescheduled ==> r == s)
      && (!t.periodic && !t.rescheduled ==> id !in r.tasks && r.queue == s.queue && r.blocked == s.blocked)
  {
    var t := s.tasks[id];
    if t.periodic then
      if t.blocked then Park(s, id, t.(deadline := 0))
      else Enqueue(s, id, t.(deadline := Wrap(now + t.delayMs)))
    else if t.rescheduled then s
    else
      var r := s.(tasks := s.tasks - {id});
      DeadlinesFrame(s.tasks, r.tasks, s.queue);
      r
  }

  /**
   * The body of `run_scheduler`'s inner loop for the sliced-off task `id`:
   * clear `rescheduled`, execute the task unless it is blocked or needs an
   * enabled device, then settle it.
   */
  function Process(s: Sched, id: TaskId, now: nat, enabled: bool, effect: TaskId -> Effect): (r: Sched)
    requires Good(s) && id in s.tasks && id !in s.queue && id !in s.blocked
    ensures Good(r)
    ensures forall x :: x != id ==> (x in r.tasks <==> x in s.tasks) && (x in s.tasks ==> r.tasks[x] == s.tasks[x])
    ensures forall x :: x in r.queue ==> x in s.queue || x == id
    ensures forall x :: x in r.blocked ==> x in s.blocked || x == id
  {
    var t := s.tasks[id].(rescheduled := false);
    var s1 := Update(s, id, t);
    Settle(if Runs(t, enabled) then Execute(s1, id, effect(id), now) else s1, id, now)
  }

  /** A task that does not run is settled by the fields it had, with `rescheduled` cleared. */
  lemma NotRunSettles(s: Sched, id: TaskId, now: nat, enabled: bool, effect: TaskId -> Effect)
    requires Good(s) && id in s.tasks && id !in s.queue && id !in s.blocked
    requires !Runs(s.tasks[id], enabled)
    ensures var t := s.tasks[id].(rescheduled := false);
      Process(s, id, now, enabled, effect) == Settle(Update(s, id, t), id, now)
  {
  }

  /** A blocked periodic task is not executed and ends at the end of the blocked queue, with deadline 0. */
  lemma BlockedParks(s: Sched, id: TaskId, now: nat, enabled: bool, effect: TaskId -> Effect)
    requires Good(s) && id in s.tasks && id !in s.queue && id !in s.blocked
    requires s.tasks[id].blocked && s.tasks[id].periodic
    ensures var r := Process(s, id, now, enabled, effect);
      id in r.tasks && r.tasks[id].deadline == 0 && r.blocked == s.blocked + [id] && r.queue == s.queue
  {
    var t := s.tasks[id].(rescheduled := false);
    var s1 := Update(s, id, t);
    assert s1.tasks[id] == t;
    NotRunSettles(s, id, now, enabled, effect);
  }

  /** The tasks of `rs`, in order, that `run_scheduler` executes. */
  function Eligible(tasks: map<TaskId, Task>, rs: seq<TaskId>, enabled: bool): (r: seq<TaskId>)
    requires forall x :: x in rs ==> x in tasks
    ensures forall x :: x in r ==> x in rs && !tasks[x].blocked
    ensures forall x :: x in rs && Runs(tasks[x], enabled) ==> x in r
    ensures |r| <= |rs|
  {
    if rs == [] then []
    else (if Runs(tasks[rs[0]], enabled) then [rs[0]] else []) + Eligible(tasks, rs[1..], enabled)
  }

  /** The precondition of processing the sliced-off tasks `rs` in turn. */
  ghost predicate Sliced(s: Sched, rs: seq<TaskId>) {
    Good(s) && Distinct(rs) && forall x :: x in rs ==> x in s.tasks && x !in s.queue && x !in s.blocked
  }

  /** The runnable tasks `rs`, processed first to last. */
  function ProcessAll(s: Sched, rs: seq<TaskId>, now: nat, enabled: bool, effect: TaskId -> Effect): (r: Sched)
    requires Sliced(s, rs)
    ensures Good(r)
    decreases |rs|
  {
    if rs == [] then s
    else
      ProcessStep(s, rs, now, enabled, effect);
      ProcessAll(Process(s, rs[0], now, enabled, effect), rs[1..], now, enabled, effect)
  }

  /** After the first sliced-off task, the rest are still sliced off and unchanged. */
  lemma ProcessStep(s: Sched, rs: seq<TaskId>, now: nat, enabled: bool, effect: TaskId -> Effect)
    requires Sliced(s, rs) && rs != []
    ensures var s' := Process(s, rs[0], now, enabled, effect);
      Sliced(s', rs[1..]) && forall x :: x in rs[1..] ==> s'.tasks[x] == s.tasks[x]
  {
    forall j | 0 <= j < |rs[1..]|
      ensures rs[1..][j] != rs[0]
    {
      assert rs[1..][j] == rs[j + 1];
    }
  }

  /** The tasks due at `now`: the longest prefix of the run queue whose deadlines have passed. */
  function Due(s: Sched, now: nat): (r: seq<TaskId>)
    requires InTable(s.tasks, s.queue)
    ensures IsPrefixOf(r, s.queue)
    ensures forall i :: 0 <= i < |r| ==> s.tasks[r[i]].deadline <= now
    ensures |r| < |s.queue| ==> now < s.tasks[s.queue[|r|]].deadline
  {
    s.queue[..LeadingAtMost(Deadlines(s.tasks, s.queue), now)]
  }

  predicate IsPrefixOf(p: seq<TaskId>, q: seq<TaskId>) { |p| <= |q| && q[..|p|] == p }

  /** One turn of `run_scheduler`'s outer loop: slice off the due tasks and process them. */
  function Round(s: Sched, now: nat, enabled: bool, effect: TaskId -> Effect): (r: Sched)
    requires Good(s)
    ensures Good(r)
  {
    var rs := Due(s, now);
    SliceSliced(s, rs);
    ProcessAll(s.(queue := s.queue[|rs|..]), rs, now, enabled, effect)
  }

  /** The prefix cut off a good run queue can be processed task by task. */
  lemma SliceSliced(s: Sched, rs: seq<TaskId>)
    requires Good(s) && IsPrefixOf(rs, s.queue)
    ensures Sliced(s.(queue := s.queue[|rs|..]), rs)
  {
    var q := s.queue[|rs|..];
    assert Deadlines(s.tasks, q) == Deadlines(s.tasks, s.queue)[|rs|..];
    forall i, j | 0 <= i < |rs| && 0 <= j < |q|
      ensures rs[i] != q[j]
    {
      assert s.queue[i] == rs[i] && s.queue[|rs| + j] == q[j];
    }
    forall i | 0 <= i < |rs|
      ensures rs[i] !in s.blocked
    {
      assert s.queue[i] == rs[i];
    }
    forall j | 0 <= j < |q|
      ensures q[j] in s.queue
    {
      assert s.queue[|rs| + j] == q[j];
    }
  }

  /** Is the head of the run queue due? */
  predicate HeadDue(s: Sched, now: nat)
    requires InTable(s.tasks, s.queue)
  {
    s.queue != [] && s.tasks[s.queue[0]].deadline <= now
  }

  /**
   * `schedule_unblocked_tasks`, from position `i` of the blocked queue: each
   * task no longer blocked is unlinked and added to the run queue with
   * deadline now.
   */
  function UnblockFrom(s: Sched, i: nat, now: nat): (r: Sched)
    requires Good(s) && i <= |s.blocked| && now < Two32
    ensures Good(r)
    decreases |s.blocked| - i
  {
    if i == |s.blocked| then s
    else
      var id := s.blocked[i];
      if s.tasks[id].blocked then UnblockFrom(s, i + 1, now)
      else
        var s1 := s.(blocked := s.blocked[..i] + s.blocked[i + 1..]);
        RemoveGood(s, i);
        UnblockFrom(Enqueue(s1, id, s.tasks[id].(deadline := now)), i, now)
  }

  /** One step of the walk: a task still blocked is passed over, any other one is moved to the run queue. */
  lemma UnblockStep(s: Sched, i: nat, now: nat)
    requires Good(s) && i < |s.blocked| && now < Two32
    ensures var id := s.blocked[i];
      var s1 := s.(blocked := s.blocked[..i] + s.blocked[i + 1..]);
      && (s.tasks[id].blocked ==> UnblockFrom(s, i, now) == UnblockFrom(s, i + 1, now))
      && (!s.tasks[id].blocked ==>
            && Good(s1) && id !in s1.queue && id !in s1.blocked
            && UnblockFrom(s, i, now) == UnblockFrom(Enqueue(s1, id, s.tasks[id].(deadline := now)), i, now))
  {
    RemoveGood(s, i);
  }

  /** The walk ends at the end of the blocked queue. */
  lemma UnblockDone(s: Sched, i: nat, now: nat)
    requires Good(s) && i == |s.blocked| && now < Two32
    ensures UnblockFrom(s, i, now) == s
  {
  }

  /** Unlinking entry `i` of the blocked queue. */
  lemma RemoveGood(s: Sched, i: nat)
    requires Good(s) && i < |s.blocked|
    ensures var s1 := s.(blocked := s.blocked[..i] + s.blocked[i + 1..]);
      Good(s1) && s.blocked[i] !in s1.queue && s.blocked[i] !in s1.blocked
      && forall x :: x in s1.blocked <==> x in s.blocked && x != s.blocked[i]
  {
    hide Sorted, Deadlines;
    var b := s.blocked;
    var b1 := b[..i] + b[i + 1..];
    assert forall j :: 0 <= j < |b1| ==> b1[j] == if j < i then b[j] else b[j + 1];
    forall x
      ensures x in b1 <==> x in b && x != b[i]
    {
      if x in b && x != b[i] {
        var j :| 0 <= j < |b| && b[j] == x;
        assert j < i ==> b1[j] == x;
        assert j > i ==> b1[j - 1] == x;
      }
    }
  }

  /** The tasks on the blocked queue that are still blocked, in order. */
  function StillBlocked(tasks: map<TaskId, Task>, q: seq<TaskId>): (r: seq<TaskId>)
    requires InTable(tasks, q)
    ensures forall x :: x in r <==> x in q && tasks[x].blocked
  {
    if q == [] then []
    else (if tasks[q[0]].blocked then [q[0]] else []) + StillBlocked(tasks, q[1..])
  }

  /** The tasks from position `i` of the blocked queue on that are no longer blocked. */
  function Moved(s: Sched, i: nat): (m: set<TaskId>)
    requires InTable(s.tasks, s.blocked) && i <= |s.blocked|
    ensures forall x :: x in m <==> x in s.blocked[i..] && !s.tasks[x].blocked
  {
    set x | x in s.blocked[i..] && !s.tasks[x].blocked
  }

  /**
   * `r` is what `schedule_unblocked_tasks` leaves when it starts at position
   * `i` of the blocked queue: the still-blocked tasks keep their order, the
   * `Moved` ones are on the run queue with deadline now, the run queue keeps
   * its tasks and no other task changes.
   */
  ghost predicate UnblockedFrom(s: Sched, i: nat, now: nat, r: Sched)
    requires InTable(s.tasks, s.blocked) && i <= |s.blocked|
  {
    StillBlockedKept(s, i, r) && MovedOut(s, i, now, r)
  }

  ghost predicate StillBlockedKept(s: Sched, i: nat, r: Sched)
    requires InTable(s.tasks, s.blocked) && i <= |s.blocked|
  {
    r.blocked == s.blocked[..i] + StillBlocked(s.tasks, s.blocked[i..])
  }

  ghost predicate MovedOut(s: Sched, i: nat, now: nat, r: Sched)
    requires InTable(s.tasks, s.blocked) && i <= |s.blocked|
  {
    (forall x :: x in s.queue ==> x in r.queue)
    && (forall x :: x in Moved(s, i) ==> x in r.queue)
    && r.tasks.Keys == s.tasks.Keys
    && (forall x :: x in s.tasks ==>
          r.tasks[x] == if x in Moved(s, i) then s.tasks[x].(deadline := now) else s.tasks[x])
  }

  /** The walk over the blocked queue does what `UnblockedFrom` says. */
  lemma {:induction false} UnblockFromResult(s: Sched, i: nat, now: nat)
    requires Good(s) && i <= |s.blocked| && now < Two32
    ensures UnblockedFrom(s, i, now, UnblockFrom(s, i, now))
    decreases |s.blocked| - i
  {
    var b := s.blocked;
    if i == |b| {
      assert b[..i] == b && b[i..] == [];
    } else if s.tasks[b[i]].blocked {
      var r := UnblockFrom(s, i + 1, now);
      UnblockFromResult(s, i + 1, now);
      hide UnblockFrom;
      UnblockSkip(s, i, now, r);
    } else {
      RemoveGood(s, i);
      var s2 := Enqueue(s.(blocked := b[..i] + b[i + 1..]), b[i], s.tasks[b[i]].(deadline := now));
      var r := UnblockFrom(s2, i, now);
      UnblockFromResult(s2, i, now);
      hide UnblockFrom;
      UnblockMove(s, i, now, s2, r);
    }
  }

  /** A still-blocked task stays where it is. */
  lemma UnblockSkip(s: Sched, i: nat, now: nat, r: Sched)
    requires InTable(s.tasks, s.blocked) && i < |s.blocked| && s.tasks[s.blocked[i]].blocked
    requires UnblockedFrom(s, i + 1, now, r)
    ensures UnblockedFrom(s, i, now, r)
  {
    SkipKeeps(s, i, r);
    SkipMoves(s, i, now, r);
  }

  lemma SkipKeeps(s: Sched, i: nat, r: Sched)
    requires InTable(s.tasks, s.blocked) && i < |s.blocked| && s.tasks[s.blocked[i]].blocked
    requires StillBlockedKept(s, i + 1, r)
    ensures StillBlockedKept(s, i, r)
  {
    var b := s.blocked;
    var id := b[i];
    assert b[i..] == [id] + b[i + 1..];
    assert StillBlocked(s.tasks, b[i..]) == [id] + StillBlocked(s.tasks, b[i + 1..]);
    assert b[..i + 1] == b[..i] + [id];
  }

  lemma SkipMoves(s: Sched, i: nat, now: nat, r: Sched)
    requires InTable(s.tasks, s.blocked) && i < |s.blocked| && s.tasks[s.blocked[i]].blocked
    requires MovedOut(s, i + 1, now, r)
    ensures MovedOut(s, i, now, r)
  {
    var b := s.blocked;
    assert Moved(s, i) == Moved(s, i + 1) by {
      assert b[i..] == [b[i]] + b[i + 1..];
    }
  }

  /** A task no longer blocked moves to the run queue, as `s2`, with deadline now. */
  lemma UnblockMove(s: Sched, i: nat, now: nat, s2: Sched, r: Sched)
    requires InTable(s.tasks, s.blocked) && Distinct(s.blocked) && i < |s.blocked| && !s.tasks[s.blocked[i]].blocked
    requires var id := s.blocked[i];
      s2.tasks == s.tasks[id := s.tasks[id].(deadline := now)]
      && s2.blocked == s.blocked[..i] + s.blocked[i + 1..]
      && (forall x :: x in s2.queue <==> x in s.queue || x == id)
    requires UnblockedFrom(s2, i, now, r)
    ensures UnblockedFrom(s, i, now, r)
  {
    MoveKeeps(s, i, now, s2, r);
    MoveMoves(s, i, now, s2, r);
  }

  lemma MoveKeeps(s: Sched, i: nat, now: nat, s2: Sched, r: Sched)
    requires InTable(s.tasks, s.blocked) && i < |s.blocked| && !s.tasks[s.blocked[i]].blocked
    requires var id := s.blocked[i];
      s2.tasks == s.tasks[id := s.tasks[id].(deadline := now)]
      && s2.blocked == s.blocked[..i] + s.blocked[i + 1..]
    requires InTable(s2.tasks, s2.blocked) && StillBlockedKept(s2, i, r)
    ensures StillBlockedKept(s, i, r)
  {
    var b := s.blocked;
    assert s2.blocked[..i] == b[..i] && s2.blocked[i..] == b[i + 1..];
    assert b[i..] == [b[i]] + b[i + 1..];
    StillBlockedFrame(s.tasks, s2.tasks, b[i + 1..]);
  }

  lemma MoveMoves(s: Sched, i: nat, now: nat, s2: Sched, r: Sched)
    requires InTable(s.tasks, s.blocked) && Distinct(s.blocked) && i < |s.blocked| && !s.tasks[s.blocked[i]].blocked
    requires var id := s.blocked[i];
      s2.tasks == s.tasks[id := s.tasks[id].(deadline := now)]
      && s2.blocked == s.blocked[..i] + s.blocked[i + 1..]
      && (forall x :: x in s2.queue <==> x in s.queue || x == id)
    requires InTable(s2.tasks, s2.blocked) && MovedOut(s2, i, now, r)
    ensures MovedOut(s, i, now, r)
  {
    var b := s.blocked;
    var id := b[i];
    assert Moved(s2, i) == Moved(s, i) - {id} by {
      assert s2.blocked[i..] == b[i + 1..];
      assert b[i..] == [id] + b[i + 1..];
      assert forall j :: i + 1 <= j < |b| ==> b[j] != id;
    }
  }

  /** Only the `blocked` flags of a queue's tasks decide which of them are still blocked. */
  lemma {:induction false} StillBlockedFrame(tasks: map<TaskId, Task>, tasks': map<TaskId, Task>, q: seq<TaskId>)
    requires InTable(tasks, q) && InTable(tasks', q)
    requires forall i :: 0 <= i < |q| ==> tasks[q[i]].blocked == tasks'[q[i]].blocked
    ensures StillBlocked(tasks, q) == StillBlocked(tasks', q)
  {
    if q != [] {
      StillBlockedFrame(tasks, tasks', q[1..]);
    }
  }

  /** The last test of `run_scheduler`: how long the caller may sleep. */
  function SleepTime(s: Sched, now: nat): (r: nat)
    requires InTable(s.tasks, s.queue)
    ensures s.queue == [] ==> r == IdleMs
    ensures s.queue != [] && s.tasks[s.queue[0]].deadline == ULongMax ==> r == IdleMs
    ensures s.queue != [] && s.tasks[s.queue[0]].deadline != ULongMax ==>
      r == if s.tasks[s.queue[0]].deadline <= now then 0 else s.tasks[s.queue[0]].deadline - now
  {
    if s.queue == [] then IdleMs
    else
      var next := s.tasks[s.queue[0]].deadline;
      if next == ULongMax then IdleMs
      else if next <= now then 0
      else next - now
  }

  /** Once the head is not due, the sleep time is positive and reaches the head's deadline. */
  lemma SleepUntilDue(s: Sched, now: nat)
    requires InTable(s.tasks, s.queue) && !HeadDue(s, now)
    ensures 0 < SleepTime(s, now)
    ensures s.queue != [] && s.tasks[s.queue[0]].deadline != ULongMax ==> now + SleepTime(s, now) == s.tasks[s.queue[0]].deadline
  {
  }

  /** `run_scheduler`'s outer loop, for at most `fuel` turns. */
  function Rounds(s: Sched, now: nat, enabled: bool, effect: TaskId -> Effect, fuel: nat): (r: Sched)
    requires Good(s) && now < Two32
    ensures Good(r)
    decreases fuel
  {
    if fuel == 0 || !HeadDue(s, now) then s
    else Rounds(UnblockFrom(Round(s, now, enabled, effect), 0, now), now, enabled, effect, fuel - 1)
  }

  /** A turn of the outer loop while a task is due and turns remain. */
  lemma RoundsStep(s: Sched, now: nat, enabled: bool, effect: TaskId -> Effect, fuel: nat)
    requires Good(s) && now < Two32 && fuel > 0 && HeadDue(s, now)
    ensures Rounds(s, now, enabled, effect, fuel) == Rounds(UnblockFrom(Round(s, now, enabled, effect), 0, now), now, enabled, effect, fuel - 1)
  {
  }

  /** The outer loop stops when no task is due or no turn remains. */
  lemma RoundsDone(s: Sched, now: nat, enabled: bool, effect: TaskId -> Effect, fuel: nat)
    requires Good(s) && now < Two32 && (fuel == 0 || !HeadDue(s, now))
    ensures Rounds(s, now, enabled, effect, fuel) == s
  {
  }

  lemma GoodTables(s: Sched)
    requires Good(s)
    ensures InTable(s.tasks, s.queue) && InTable(s.tasks, s.blocked)
  {
  }

  // ------------------------------------------------------------ the scheduler

  /** The statics `task_queue` and `blocked_queue`, and the task objects they link. */
  class Scheduler {
    var tasks: map<TaskId, Task>
    var taskQueue: seq<TaskId>
    var blockedQueue: seq<TaskId>

    function State(): Sched
      reads this
    {
      Sched(tasks, taskQueue, blockedQueue)
    }

    ghost predicate Valid()
      reads this
    {
      Good(State())
    }

    constructor ()
      ensures Valid() && State() == Sched(map[], [], [])
    {
      tasks, taskQueue, blockedQueue := map[], [], [];
    }

    /** `new` of a task class: a task object not yet on any queue. */
    method Create(id: TaskId, onlyWhenEnabled: bool)
      requires Valid() && id !in tasks
      modifies this
      ensures Valid() && State() == old(State()).(tasks := old(tasks)[id := NewTask(onlyWhenEnabled)])
    {
      DeadlinesFrame(tasks, tasks[id := NewTask(onlyWhenEnabled)], taskQueue);
      tasks := tasks[id := NewTask(onlyWhenEnabled)];
    }

    /** `sched_microtask_after`, for a task on neither queue. */
    method SchedAfter(id: TaskId, delay: nat, now: nat)
      requires Valid() && id in tasks && id !in taskQueue && id !in blockedQueue
      modifies this
      ensures Valid() && State() == ScheduleAfter(old(State()), id, delay, now)
    {
      Link(id, tasks[id].(periodic := false, rescheduled := true, deadline := Wrap(now + delay)));
    }

    /** `sched_microtask_periodically`, for a task on neither queue. */
    method SchedPeriodically(id: TaskId, interval: nat, now: nat)
      requires Valid() && id in tasks && id !in taskQueue && id !in blockedQueue && now < Two32
      modifies this
      ensures Valid() && State() == SchedulePeriodically(old(State()), id, interval, now)
    {
      Link(id, tasks[id].(periodic := true, deadline := now, delayMs := interval));
    }

    /** `add_task(&task_queue, …)` for a task on neither queue, with fields `t`. */
    method Link(id: TaskId, t: Task)
      requires Valid() && id !in taskQueue && id !in blockedQueue && t.deadline < Two32
      modifies this
      ensures Valid() && State() == Enqueue(old(State()), id, t)
    {
      ghost var s := State();
      ghost var r := Enqueue(s, id, t);
      assert r == Sched(s.tasks[id := t], Insert(s.tasks[id := t], s.queue, id), s.blocked);
      hide Good, Enqueue, Insert;
      tasks := tasks[id := t];
      taskQueue := AddTask(tasks, taskQueue, id);
    }

    /** `add_task(&blocked_queue, …)` for a task on neither queue, with fields `t` and deadline 0. */
    method ParkTask(id: TaskId, t: Task)
      requires Valid() && id !in taskQueue && id !in blockedQueue && t.deadline == 0
      modifies this
      ensures Valid() && State() == Park(old(State()), id, t)
    {
      tasks := tasks[id := t];
      blockedQueue := AddTask(tasks, blockedQueue, id);
    }

    /** `block_microtask`: only a periodic task becomes blocked. */
    method Block(id: TaskId)
      requires Valid() && id in tasks
      modifies this
      ensures Valid() && State() == Update(old(State()), id, BlockTask(old(tasks)[id]))
    {
      ghost var s := State();
      if tasks[id].periodic {
        tasks := tasks[id := tasks[id].(blocked := true)];
      }
      assert State() == Update(s, id, BlockTask(s.tasks[id]));
    }

    /** `unblock_microtask`. */
    method Unblock(id: TaskId)
      requires Valid() && id in tasks
      modifies this
      ensures Valid() && State() == Update(old(State()), id, old(tasks)[id].(blocked := false))
    {
      ghost var s := State();
      tasks := tasks[id := tasks[id].(blocked := false)];
      assert State() == Update(s, id, s.tasks[id].(blocked := false));
    }

    /** `schedule_unblocked_tasks`: the walk over the blocked queue. */
    method ScheduleUnblocked(now: nat)
      requires Valid() && now < Two32
      modifies this
      ensures Valid() && State() == UnblockFrom(old(State()), 0, now)
    {
      hide UnblockFrom, Good, Enqueue, Insert;
      var i := 0;
      while i < |blockedQueue|
        invariant i <= |blockedQueue| && Valid()
        invariant UnblockFrom(old(State()), 0, now) == UnblockFrom(State(), i, now)
        decreases |blockedQueue| - i
      {
        GoodTables(State());
        var id := blockedQueue[i];
        UnblockStep(State(), i, now);
        if !tasks[id].blocked {
          blockedQueue := blockedQueue[..i] + blockedQueue[i + 1..];
          Link(id, tasks[id].(deadline := now));
        } else {
          i := i + 1;
        }
      }
      UnblockDone(State(), i, now);
    }

    /** Task `id`'s turn in `run_scheduler`; `executed` says whether `execute` was called. */
    method RunTask(id: TaskId, now: nat, enabled: bool, effect: TaskId -> Effect) returns (executed: bool)
      requires Valid() && id in tasks && id !in taskQueue && id !in blockedQueue
      modifies this
      ensures Valid() && State() == Process(old(State()), id, now, enabled, effect)
      ensures executed == Runs(old(tasks)[id], enabled)
    {
      ghost var s := State();
      var t := tasks[id].(rescheduled := false);
      tasks := tasks[id := t];
      assert State() == Update(s, id, t);
      executed := false;
      if t.blocked {
        // not runnable
      } else if enabled || !t.onlyWhenEnabled {
        executed := true;
        ExecuteTask(id, effect(id), now);
      }
      SettleTask(id, now);
    }

    /** `it->execute(data)`, by what it does to the task itself. */
    method ExecuteTask(id: TaskId, e: Effect, now: nat)
      requires Valid() && id in tasks && id !in taskQueue && id !in blockedQueue && !tasks[id].rescheduled
      modifies this
      ensures Valid() && State() == Execute(old(State()), id, e, now)
    {
      match e
      case Idle =>
      case BlockSelf => Block(id);
      case RescheduleSelf(d) => SchedAfter(id, d, now);
    }

    /** The re-queueing after a task's turn. */
    method SettleTask(id: TaskId, now: nat)
      requires Executed(State(), id)
      modifies this
      ensures Valid() && State() == Settle(old(State()), id, now)
    {
      hide Good, Insert, Enqueue, Park;
      ghost var s := State();
      var t := tasks[id];
      if t.periodic {
        if t.blocked {
          ParkTask(id, t.(deadline := 0));
        } else {
          Link(id, t.(deadline := Wrap(now + t.delayMs)));
        }
      } else if t.rescheduled {
        // already on the run queue with its new deadline
      } else {
        tasks := tasks - {id};
        assert State() == s.(tasks := s.tasks - {id}) == Settle(s, id, now);
      }
    }

    /** The slicing walk of `run_scheduler`: the due tasks leave the run queue. */
    method SliceDue(now: nat) returns (runnable: seq<TaskId>)
      requires Valid()
      modifies this
      ensures runnable == Due(old(State()), now) && Sliced(State(), runnable)
      ensures State() == old(State()).(queue := old(taskQueue)[|runnable|..])
    {
      var k := 0;
      while k < |taskQueue| && tasks[taskQueue[k]].deadline <= now
        invariant k <= |taskQueue|
        invariant forall i :: 0 <= i < k ==> tasks[taskQueue[i]].deadline <= now
      {
        k := k + 1;
      }
      LeadingAtMostIs(Deadlines(tasks, taskQueue), now, k);
      runnable := taskQueue[..k];
      SliceSliced(State(), runnable);
      taskQueue := taskQueue[k..];
    }

    /**
     * One turn of `run_scheduler`'s outer loop: the due tasks are sliced
     * off and processed in order; `ran` lists the ones executed.
     */
    method RunRound(now: nat, enabled: bool, effect: TaskId -> Effect) returns (ran: seq<TaskId>)
      requires Valid()
      modifies this
      ensures Valid() && State() == Round(old(State()), now, enabled, effect)
      ensures ran == Eligible(old(tasks), Due(old(State()), now), enabled)
    {
      var runnable := SliceDue(now);
      ghost var tasks0 := tasks;
      ghost var goal := Round(old(State()), now, enabled, effect);
      assert goal == ProcessAll(State(), runnable, now, enabled, effect);
      assert tasks0 == old(tasks);
      hide Good, Process, Round;
      var i := 0;
      ran := [];
      while i < |runnable|
        invariant i <= |runnable| && Valid() && Sliced(State(), runnable[i..])
        invariant goal == ProcessAll(State(), runnable[i..], now, enabled, effect)
        invariant forall x :: x in runnable ==> x in tasks0
        invariant forall x :: x in runnable[i..] ==> x in tasks && tasks[x] == tasks0[x]
        invariant ran == Eligible(tasks0, runnable[..i], enabled)
      {
        ran := RunNext(runnable, i, tasks0, goal, now, enabled, effect, ran);
        i := i + 1;
      }
      assert runnable[..i] == runnable;
    }

    /** The body of `RunRound`'s walk: task `runnable[i]` takes its turn. */
    method RunNext(runnable: seq<TaskId>, i: nat, ghost tasks0: map<TaskId, Task>, ghost goal: Sched,
                   now: nat, enabled: bool, effect: TaskId -> Effect, ran: seq<TaskId>) returns (ran': seq<TaskId>)
      requires i < |runnable| && Valid() && Sliced(State(), runnable[i..])
      requires goal == ProcessAll(State(), runnable[i..], now, enabled, effect)
      requires forall x :: x in runnable ==> x in tasks0
      requires forall x :: x in runnable[i..] ==> x in tasks && tasks[x] == tasks0[x]
      requires ran == Eligible(tasks0, runnable[..i], enabled)
      modifies this
      ensures Valid() && Sliced(State(), runnable[i + 1..])
      ensures goal == ProcessAll(State(), runnable[i + 1..], now, enabled, effect)
      ensures forall x :: x in runnable[i + 1..] ==> x in tasks && tasks[x] == tasks0[x]
      ensures ran' == Eligible(tasks0, runnable[..i + 1], enabled)
    {
      hide Good, Process;
      var id := runnable[i];
      assert runnable[i..][0] == id && runnable[i..][1..] == runnable[i + 1..];
      EligibleSnoc(tasks0, runnable, i, enabled);
      ProcessStep(State(), runnable[i..], now, enabled, effect);
      var executed := RunTask(id, now, enabled, effect);
      ran' := if executed then ran + [id] else ran;
    }

    /** A turn of the outer loop, with the unblocking pass that ends it. */
    method Turn(now: nat, enabled: bool, effect: TaskId -> Effect)
      requires Valid() && now < Two32
      modifies this
      ensures Valid() && InTable(tasks, taskQueue)
      ensures State() == UnblockFrom(Round(old(State()), now, enabled, effect), 0, now)
    {
      var _ := RunRound(now, enabled, effect);
      ScheduleUnblocked(now);
      GoodTables(State());
    }

    /**
     * `run_scheduler`: unblock, run the due tasks turn by turn (for at most
     * `fuel` turns), and report the sleep time.  `rounds < fuel` means the
     * loop stopped because no task was due any longer.
     */
    method RunScheduler(now: nat, enabled: bool, effect: TaskId -> Effect, fuel: nat) returns (sleep: nat, rounds: nat)
      requires Valid() && now < Two32
      modifies this
      ensures Valid() && State() == Rounds(UnblockFrom(old(State()), 0, now), now, enabled, effect, fuel)
      ensures sleep == SleepTime(State(), now) && rounds <= fuel
      ensures rounds < fuel ==> !HeadDue(State(), now) && 0 < sleep
    {
      ScheduleUnblocked(now);
      GoodTables(State());
      rounds := DueTurns(now, enabled, effect, fuel);
      if rounds < fuel {
        SleepUntilDue(State(), now);
      }
      sleep := SleepTime(State(), now);
    }

    /** The outer loop of `run_scheduler`, for at most `fuel` turns. */
    method DueTurns(now: nat, enabled: bool, effect: TaskId -> Effect, fuel: nat) returns (rounds: nat)
      requires Valid() && now < Two32 && InTable(tasks, taskQueue)
      modifies this
      ensures Valid() && State() == Rounds(old(State()), now, enabled, effect, fuel)
      ensures rounds <= fuel && (rounds < fuel ==> !HeadDue(State(), now))
    {
      hide Good, UnblockFrom, Round, Rounds, HeadDue, InTable;
      rounds := 0;
      ghost var goal := Rounds(State(), now, enabled, effect, fuel);
      while rounds < fuel && HeadDue(State(), now)
        invariant Valid() && rounds <= fuel && InTable(tasks, taskQueue)
        invariant goal == Rounds(State(), now, enabled, effect, fuel - rounds)
      {
        RoundsStep(State(), now, enabled, effect, fuel - rounds);
        Turn(now, enabled, effect);
        rounds := rounds + 1;
      }
      RoundsDone(State(), now, enabled, effect, fuel - rounds);
    }
  }

  /** The executed tasks grow by one step of the walk over the sliced-off tasks. */
  lemma EligibleSnoc(tasks: map<TaskId, Task>, rs: seq<TaskId>, i: nat, enabled: bool)
    requires i < |rs| && forall x :: x in rs ==> x in tasks
    ensures Eligible(tasks, rs[..i + 1], enabled)
         == Eligible(tasks, rs[..i], enabled) + (if Runs(tasks[rs[i]], enabled) then [rs[i]] else [])
  {
    var a, b := rs[..i], [rs[i]];
    assert a + b == rs[..i + 1];
    forall x | x in a + b ensures x in tasks {
      var k :| 0 <= k < |a + b| && (a + b)[k] == x;
      assert (a + b)[k] == rs[k];
    }
    EligibleAppend(tasks, a, b, enabled);
  }

  lemma {:induction false} EligibleAppend(tasks: map<TaskId, Task>, a: seq<TaskId>, b: seq<TaskId>, enabled: bool)
    requires forall x :: x in a + b ==> x in tasks
    ensures Eligible(tasks, a + b, enabled) == Eligible(tasks, a, enabled) + Eligible(tasks, b, enabled)
    decreases |a|
  {
    if a == [] {
      assert a + b == b;
    } else {
      assert (a + b)[0] == a[0] && (a + b)[1..] == a[1..] + b;
      EligibleAppend(tasks, a[1..], b, enabled);
    }
  }
}
