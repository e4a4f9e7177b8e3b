/** The priority pool: `scheduler::schedule`, `priority_task_queue` and `runner::run`. */
module TaskScheduler {
  import opened Arithmetic

  datatype Task = Task(id: nat)

  datatype Priority = High | Normal

  // ---- the queue ----

  datatype Queues = Queues(high: seq<Task>, normal: seq<Task>)

  function Queued(q: Queues, p: Priority): seq<Task> { if p == High then q.high else q.normal }

  function Length(q: Queues): nat { |q.high| + |q.normal| }

  datatype Front = Nothing | Popped(task: Task, priority: Priority)

  class PriorityTaskQueue {
    var high: seq<Task>
    var normal: seq<Task>

    function View(): Queues
      reads this
    {
      Queues(high, normal)
    }

    constructor ()
      ensures View() == Queues([], [])
    {
      high, normal := [], [];
    }

    method Push(t: Task, p: Priority)
      modifies this
      ensures forall r :: Queued(View(), r) == if r == p then old(Queued(View(), r)) + [t] else old(Queued(View(), r))
    {
      if p == High { high := high + [t]; } else { normal := normal + [t]; }
    }

    /** The oldest task of the highest priority there is; a normal one only when no high one is queued. */
    method FrontAndPop() returns (f: Front)
      modifies this
      ensures f.Nothing? <==> Length(old(View())) == 0
      ensures f.Nothing? ==> View() == old(View())
      ensures f.Popped? ==> (f.priority == Normal ==> old(high) == [])
      ensures f.Popped? ==> forall r :: old(Queued(View(), r)) == (if r == f.priority then [f.task] else []) + Queued(View(), r)
    {
      for i := 0 to 2
        invariant View() == old(View()) && (i >= 1 ==> high == []) && (i == 2 ==> normal == [])
      {
        if i == 0 && high != [] {
          f := Popped(high[0], High);
          high := high[1..];
          return;
        }
        if i == 1 && normal != [] {
          f := Popped(normal[0], Normal);
          normal := normal[1..];
          return;
        }
      }
      f := Nothing;
    }
  }

  // ---- the pool ----

  /** A runner is before its locked block, asleep on the condition, or running a task. */
  datatype Phase = Checking | Asleep(notified: bool) | Running(task: Task)

  datatype Pool = Pool(queue: Queues, waitCount: nat, runners: seq<Phase>, scheduled: Queues, started: Queues)

  /** `chosen` is the waiter that the notification reaches, if one is waiting. */
  datatype Step = Schedule(task: Task, priority: Priority, chosen: nat) | Check(k: nat) | Finish(k: nat)

  function Start(n: nat): Pool { Pool(Queues([], []), 0, seq(n, _ => Checking), Queues([], []), Queues([], [])) }

  function Pushed(q: Queues, t: Task, p: Priority): Queues
  {
    if p == High then q.(high := q.high + [t]) else q.(normal := q.normal + [t])
  }

  function Notified(runners: seq<Phase>, k: nat): (r: seq<Phase>)
    ensures |r| == |runners|
  {
    if k < |runners| && runners[k] == Asleep(false) then runners[k := Asleep(true)] else runners
  }

  /** A notification reaches a waiter that has none, if there is one. Waking up needs no notification. */
  predicate Allowed(p: Pool, step: Step)
  {
    match step
    case Schedule(_, _, chosen) => Asleep(false) in p.runners ==> chosen < |p.runners| && p.runners[chosen] == Asleep(false)
    case Check(k) => k < |p.runners| && (p.runners[k] == Checking || (p.runners[k].Asleep? && p.waitCount > 0))
    case Finish(k) => k < |p.runners| && p.runners[k].Running?
  }

  function Next(p: Pool, step: Step): (q: Pool)
    requires Allowed(p, step)
    ensures |q.runners| == |p.runners|
  {
    match step
    case Schedule(t, priority, chosen) =>
      p.(queue := Pushed(p.queue, t, priority), scheduled := Pushed(p.scheduled, t, priority),
         runners := if p.waitCount > 0 then Notified(p.runners, chosen) else p.runners)
    case Check(k) =>
      var wait := if p.runners[k].Asleep? then p.waitCount - 1 else p.waitCount;
      var q := p.queue;
      if q.high != [] then
        p.(waitCount := wait, queue := q.(high := q.high[1..]), runners := p.runners[k := Running(q.high[0])],
           started := p.started.(high := p.started.high + [q.high[0]]))
      else if q.normal != [] then
        p.(waitCount := wait, queue := q.(normal := q.normal[1..]), runners := p.runners[k := Running(q.normal[0])],
           started := p.started.(normal := p.started.normal + [q.normal[0]]))
      else
        p.(waitCount := wait + 1, runners := p.runners[k := Asleep(false)])
    case Finish(k) =>
      p.(runners := p.runners[k := Checking])
  }

  // ---- counting ----

  /** Waiters on the condition, and those of them that no notification has reached. */
  function Waiters(runners: seq<Phase>): nat
  {
    if runners == [] then 0 else (if runners[0].Asleep? then 1 else 0) + Waiters(runners[1..])
  }

  function Sleepers(runners: seq<Phase>): nat
  {
    if runners == [] then 0 else (if runners[0] == Asleep(false) then 1 else 0) + Sleepers(runners[1..])
  }

  lemma {:induction false} CountUpdate(runners: seq<Phase>, k: nat, to: Phase)
    requires k < |runners|
    ensures Waiters(runners[k := to]) == Waiters(runners) - (if runners[k].Asleep? then 1 else 0) + (if to.Asleep? then 1 else 0)
    ensures Sleepers(runners[k := to]) == Sleepers(runners) - (if runners[k] == Asleep(false) then 1 else 0) + (if to == Asleep(false) then 1 else 0)
  {
    if k > 0 {
      assert runners[k := to][1..] == runners[1..][k - 1 := to];
      CountUpdate(runners[1..], k - 1, to);
    } else {
      assert runners[k := to][1..] == runners[1..];
    }
  }

  lemma {:induction false} SleepersBound(runners: seq<Phase>)
    ensures Sleepers(runners) <= Waiters(runners) <= |runners|
    ensures Sleepers(runners) > 0 <==> Asleep(false) in runners
    ensures Sleepers(runners) == |runners| <==> forall k :: 0 <= k < |runners| ==> runners[k] == Asleep(false)
  {
    if runners != [] {
      SleepersBound(runners[1..]);
      assert forall k :: 0 < k < |runners| ==> runners[k] == runners[1..][k - 1];
    }
  }

  lemma {:induction false} NoneAsleep(n: nat)
    ensures Waiters(seq(n, _ => Checking)) == 0
  {
    if n > 0 {
      assert seq(n, _ => Checking)[1..] == seq(n - 1, _ => Checking);
      NoneAsleep(n - 1);
    }
  }

  // ---- the invariant ----

  /** The wait count is the number of waiters; every task is queued or was started, in order within its priority;
      and as many runners as there are tasks queued, or all, are not asleep for good. */
  predicate Inv(p: Pool)
  {
    && p.runners != [] && p.waitCount == Waiters(p.runners)
    && p.started.high + p.queue.high == p.scheduled.high
    && p.started.normal + p.queue.normal == p.scheduled.normal
    && |p.runners| - Sleepers(p.runners) >= Min(Length(p.queue), |p.runners|)
  }

  lemma ScheduleKeeps(p: Pool, t: Task, priority: Priority, chosen: nat)
    requires Inv(p) && Allowed(p, Schedule(t, priority, chosen))
    ensures Inv(Next(p, Schedule(t, priority, chosen)))
  {
    SleepersBound(p.runners);
    if chosen < |p.runners| { CountUpdate(p.runners, chosen, Asleep(true)); }
    var q := Next(p, Schedule(t, priority, chosen));
    assert q.started.high + q.queue.high == q.scheduled.high;
    assert q.started.normal + q.queue.normal == q.scheduled.normal;
  }

  lemma CheckKeeps(p: Pool, k: nat)
    requires Inv(p) && Allowed(p, Check(k))
    ensures Inv(Next(p, Check(k)))
  {
    SleepersBound(p.runners);
    var q := Next(p, Check(k));
    CountUpdate(p.runners, k, q.runners[k]);
    SleepersBound(q.runners);
    assert q.started.high + q.queue.high == q.scheduled.high;
    assert q.started.normal + q.queue.normal == q.scheduled.normal;
  }

  lemma StepKeeps(p: Pool, step: Step)
    requires Inv(p) && Allowed(p, step)
    ensures Inv(Next(p, step))
  {
    match step {
      case Schedule(t, priority, chosen) => ScheduleKeeps(p, t, priority, chosen);
      case Check(k) => CheckKeeps(p, k);
      case Finish(k) => CountUpdate(p.runners, k, Checking);
    }
  }

  predicate Reaches(p: Pool, steps: seq<Step>, q: Pool)
    decreases |steps|
  {
    if steps == [] then p == q else Allowed(p, steps[0]) && Reaches(Next(p, steps[0]), steps[1..], q)
  }

  lemma {:induction false} RunInv(p: Pool, steps: seq<Step>, q: Pool)
    requires Inv(p) && Reaches(p, steps, q)
    ensures Inv(q)
    decreases |steps|
  {
    hide Inv, Next, Allowed;
    if steps != [] {
      StepKeeps(p, steps[0]);
      RunInv(Next(p, steps[0]), steps[1..], q);
    }
  }

  lemma StartInv(n: nat)
    requires n > 0
    ensures Inv(Start(n))
  {
    NoneAsleep(n);
    SleepersBound(Start(n).runners);
  }

  // ---- the theorems ----

  /** No wake-up is lost: while a task is queued some runner is not asleep un-notified, and of `m` tasks queued at
      least `m` runners, or all of them, are not. */
  lemma NoLostWakeup(n: nat, steps: seq<Step>, q: Pool)
    requires n > 0 && Reaches(Start(n), steps, q)
    ensures Length(q.queue) > 0 ==> exists k :: 0 <= k < |q.runners| && q.runners[k] != Asleep(false)
    ensures |q.runners| - Sleepers(q.runners) >= Min(Length(q.queue), |q.runners|)
    ensures q.waitCount == Waiters(q.runners)
  {
    StartInv(n);
    RunInv(Start(n), steps, q);
    SleepersBound(q.runners);
  }

  /** Every task is started at most once and in the order of its priority; all of them are when the pool is at rest. */
  lemma EachOnceInOrder(n: nat, steps: seq<Step>, q: Pool, p: Priority)
    requires n > 0 && Reaches(Start(n), steps, q)
    ensures Queued(q.started, p) + Queued(q.queue, p) == Queued(q.scheduled, p)
    ensures (forall k :: 0 <= k < |q.runners| ==> q.runners[k] == Asleep(false)) ==> q.started == q.scheduled
  {
    StartInv(n);
    RunInv(Start(n), steps, q);
    SleepersBound(q.runners);
    if Length(q.queue) == 0 {
      assert q.started.high + [] == q.started.high && q.started.normal + [] == q.started.normal;
    }
  }

  /** No normal task starts between the scheduling and the start of a high one: while the `i`-th high task queued
      in a state is not started, whatever else happens, no normal task is. */
  lemma {:induction false} HighFirst(p: Pool, steps: seq<Step>, q: Pool, i: nat)
    requires Reaches(p, steps, q) && i < |p.queue.high| && |q.started.high| <= |p.started.high| + i
    ensures q.started.normal == p.started.normal
    decreases |steps|
  {
    if steps != [] {
      var p1 := Next(p, steps[0]);
      HighStarts(p1, steps[1..], q);
      HighFirst(p1, steps[1..], q, i - (|p1.started.high| - |p.started.high|));
    }
  }

  lemma {:induction false} HighStarts(p: Pool, steps: seq<Step>, q: Pool)
    requires Reaches(p, steps, q)
    ensures |p.started.high| <= |q.started.high|
    decreases |steps|
  {
    if steps != [] { HighStarts(Next(p, steps[0]), steps[1..], q); }
  }

  // ---- the scheduler as an object: each method is one stretch under its mutex ----

  class Scheduler {
    const queue: PriorityTaskQueue
    var waitCount: nat
    var runners: seq<Phase>
    ghost var scheduled: Queues
    ghost var started: Queues

    ghost function View(): Pool
      reads this, queue
    {
      Pool(queue.View(), waitCount, runners, scheduled, started)
    }

    constructor (n: nat)
      ensures fresh(queue) && View() == Start(n)
    {
      queue := new PriorityTaskQueue();
      waitCount, runners := 0, seq(n, _ => Checking);
      scheduled, started := Queues([], []), Queues([], []);
    }

    method Schedule(t: Task, p: Priority, chosen: nat)
      requires Allowed(View(), Step.Schedule(t, p, chosen))
      modifies this, queue
      ensures View() == Next(old(View()), Step.Schedule(t, p, chosen))
    {
      queue.Push(t, p);
      assert queue.high == Queued(queue.View(), High) && queue.normal == Queued(queue.View(), Normal);
      if waitCount > 0 { runners := Notified(runners, chosen); }
      scheduled := Pushed(scheduled, t, p);
    }

    /** The locked block of `runner::run`: take a task or go to sleep. */
    method CheckBegin(k: nat) returns (f: Front)
      requires Allowed(View(), Check(k))
      modifies this, queue
      ensures View() == Next(old(View()), Check(k))
      ensures f.Popped? <==> old(Length(queue.View())) > 0
    {
      ghost var before := queue.View();
      if runners[k].Asleep? { waitCount := waitCount - 1; }
      f := queue.FrontAndPop();
      assert before.high == Queued(before, High) && before.normal == Queued(before, Normal);
      assert queue.high == Queued(queue.View(), High) && queue.normal == Queued(queue.View(), Normal);
      match f {
        case Nothing =>
          waitCount := waitCount + 1;
          runners := runners[k := Asleep(false)];
        case Popped(t, p) =>
          assert Queued(before, p) == [t] + Queued(queue.View(), p);
          runners := runners[k := Running(t)];
          started := Pushed(started, t, p);
          if p == High {
            assert before.high == [t] + queue.high && before.normal == [] + queue.normal == queue.normal;
          } else {
            assert before.normal == [t] + queue.normal && before.high == [] + queue.high == queue.high;
          }
      }
    }

    method FinishTask(k: nat)
      requires Allowed(View(), Finish(k))
      modifies this
      ensures View() == Next(old(View()), Finish(k))
    {
      runners := runners[k := Checking];
    }
  }
}
